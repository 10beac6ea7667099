/** Generic facts about sequences: filtering, subsequences, interleavings, flattening. */
module Seqs {

  /** `Array.prototype.filter`: the elements satisfying `p`, in their order. */
  function Filter<T>(s: seq<T>, p: T -> bool): (r: seq<T>)
    ensures |r| <= |s|
    ensures forall i :: 0 <= i < |r| ==> r[i] in s && p(r[i])
    ensures forall i :: 0 <= i < |s| && p(s[i]) ==> s[i] in r
  {
    if s == [] then []
    else
      var init := s[..|s| - 1];
      assert s == init + [s[|s| - 1]];
      Filter(init, p) + (if p(s[|s| - 1]) then [s[|s| - 1]] else [])
  }

  /** `xs` is obtained from `ys` by deleting elements: it keeps their relative order. */
  predicate IsSubseq<T(==)>(xs: seq<T>, ys: seq<T>)
  {
    if ys == [] then xs == []
    else
      (xs != [] && xs[|xs| - 1] == ys[|ys| - 1] && IsSubseq(xs[..|xs| - 1], ys[..|ys| - 1]))
      || IsSubseq(xs, ys[..|ys| - 1])
  }

  /** `a` is a merge of `xs` and `ys` that keeps the order of both: every element of `a`
      belongs to exactly one of them. */
  predicate Interleaves<T(==)>(a: seq<T>, xs: seq<T>, ys: seq<T>)
  {
    if a == [] then xs == [] && ys == []
    else
      (xs != [] && xs[|xs| - 1] == a[|a| - 1] && Interleaves(a[..|a| - 1], xs[..|xs| - 1], ys))
      || (ys != [] && ys[|ys| - 1] == a[|a| - 1] && Interleaves(a[..|a| - 1], xs, ys[..|ys| - 1]))
  }

  /** `Array.prototype.flat()` on an array of arrays. */
  function Flatten<T>(ss: seq<seq<T>>): seq<T>
  {
    if ss == [] then [] else Flatten(ss[..|ss| - 1]) + ss[|ss| - 1]
  }

  lemma {:induction false} FilterAppend<T>(a: seq<T>, b: seq<T>, p: T -> bool)
    ensures Filter(a + b, p) == Filter(a, p) + Filter(b, p)
  {
    if b == [] {
      assert a + b == a;
    } else {
      var bi := b[..|b| - 1];
      assert (a + b)[..|a + b| - 1] == a + bi;
      FilterAppend(a, bi, p);
    }
  }

  lemma {:induction false} FilterIsSubseq<T>(s: seq<T>, p: T -> bool)
    ensures IsSubseq(Filter(s, p), s)
  {
    if s != [] {
      var init := s[..|s| - 1];
      FilterIsSubseq(init, p);
      if p(s[|s| - 1]) {
        var r := Filter(s, p);
        assert r[..|r| - 1] == Filter(init, p);
      } else {
        assert Filter(s, p) == Filter(init, p);
      }
    }
  }

  /** Filtering twice is filtering once by the conjunction. */
  lemma {:induction false} FilterTwice<T>(s: seq<T>, p: T -> bool, q: T -> bool, both: T -> bool)
    requires forall x :: both(x) == (p(x) && q(x))
    ensures Filter(Filter(s, p), q) == Filter(s, both)
  {
    if s != [] {
      var init := s[..|s| - 1];
      var x := s[|s| - 1];
      FilterTwice(init, p, q, both);
      FilterAppend(Filter(init, p), if p(x) then [x] else [], q);
    }
  }

  /** Filtering keeps every occurrence of a satisfying element and none of the others. */
  lemma {:induction false} FilterCount<T>(s: seq<T>, p: T -> bool, x: T)
    ensures multiset(Filter(s, p))[x] == if p(x) then multiset(s)[x] else 0
  {
    if s != [] {
      var init := s[..|s| - 1];
      FilterCount(init, p, x);
      assert s == init + [s[|s| - 1]];
    }
  }

  lemma {:induction false} FilterNothing<T>(s: seq<T>, p: T -> bool)
    requires forall i :: 0 <= i < |s| ==> !p(s[i])
    ensures Filter(s, p) == []
  {
    if s != [] {
      FilterNothing(s[..|s| - 1], p);
    }
  }

  lemma {:induction false} SubseqRefl<T>(s: seq<T>)
    ensures IsSubseq(s, s)
  {
    if s != [] {
      SubseqRefl(s[..|s| - 1]);
    }
  }

  lemma {:induction false} SubseqTrans<T>(x: seq<T>, y: seq<T>, z: seq<T>)
    requires IsSubseq(x, y) && IsSubseq(y, z)
    ensures IsSubseq(x, z)
    decreases |z|
  {
    if z != [] {
      var zi := z[..|z| - 1];
      if y != [] && y[|y| - 1] == z[|z| - 1] && IsSubseq(y[..|y| - 1], zi) {
        var yi := y[..|y| - 1];
        if x != [] && x[|x| - 1] == y[|y| - 1] && IsSubseq(x[..|x| - 1], yi) {
          SubseqTrans(x[..|x| - 1], yi, zi);
        } else {
          SubseqTrans(x, yi, zi);
        }
      } else {
        SubseqTrans(x, y, zi);
      }
    }
  }

  /** Deleting one element leaves a subsequence (`Array.prototype.splice(k, 1)`). */
  lemma {:induction false} RemoveIsSubseq<T>(s: seq<T>, k: nat)
    requires k < |s|
    ensures IsSubseq(s[..k] + s[k + 1..], s)
  {
    var r := s[..k] + s[k + 1..];
    var si := s[..|s| - 1];
    if k == |s| - 1 {
      assert r == si;
      SubseqRefl(si);
    } else {
      RemoveIsSubseq(si, k);
      assert r[..|r| - 1] == si[..k] + si[k + 1..];
    }
  }

  lemma {:induction false} SubseqMembers<T>(xs: seq<T>, ys: seq<T>)
    requires IsSubseq(xs, ys)
    ensures forall x :: x in xs ==> x in ys
  {
    if ys != [] {
      var yi := ys[..|ys| - 1];
      if xs != [] && xs[|xs| - 1] == ys[|ys| - 1] && IsSubseq(xs[..|xs| - 1], yi) {
        SubseqMembers(xs[..|xs| - 1], yi);
        assert xs == xs[..|xs| - 1] + [xs[|xs| - 1]];
        assert ys == yi + [ys[|ys| - 1]];
      } else {
        SubseqMembers(xs, yi);
        assert ys == yi + [ys[|ys| - 1]];
      }
    }
  }

  lemma {:induction false} FlattenMembers<T>(ss: seq<seq<T>>, x: T)
    ensures x in Flatten(ss) <==> exists i :: 0 <= i < |ss| && x in ss[i]
  {
    if ss != [] {
      var init := ss[..|ss| - 1];
      FlattenMembers(init, x);
      if x in ss[|ss| - 1] {
        assert x in Flatten(ss);
      }
      if exists i :: 0 <= i < |ss| && x in ss[i] {
        var i :| 0 <= i < |ss| && x in ss[i];
        if i < |ss| - 1 {
          assert x in init[i];
        }
      }
    }
  }

  lemma {:induction false} FlattenAppend<T>(a: seq<seq<T>>, b: seq<seq<T>>)
    ensures Flatten(a + b) == Flatten(a) + Flatten(b)
  {
    if b != [] {
      var bi := b[..|b| - 1];
      assert (a + b)[..|a + b| - 1] == a + bi;
      FlattenAppend(a, bi);
    } else {
      assert a + b == a;
    }
  }

  /** Dropping the empty sequences does not change the flattening. */
  lemma {:induction false} FlattenSkipsEmpty<T>(ss: seq<seq<T>>, nonEmpty: seq<T> -> bool)
    requires forall s :: nonEmpty(s) <==> s != []
    ensures Flatten(Filter(ss, nonEmpty)) == Flatten(ss)
  {
    if ss != [] {
      var init := ss[..|ss| - 1];
      var last := ss[|ss| - 1];
      FlattenSkipsEmpty(init, nonEmpty);
      var f := Filter(init, nonEmpty);
      if nonEmpty(last) {
        assert (f + [last])[..|f + [last]| - 1] == f;
        assert Flatten(f + [last]) == Flatten(f) + last;
      } else {
        assert Filter(ss, nonEmpty) == f;
        assert Flatten(ss) == Flatten(init) + [];
      }
    }
  }
}
