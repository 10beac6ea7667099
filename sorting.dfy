/** `Array.prototype.sort` with a comparator, as the report list is sorted in place
    (src/App.tsx). The engine's sort is stable, and for a comparator that is a total preorder
    a stable sort has exactly one possible result: the one stable insertion sort computes.
    The method sorts the array in place by insertion; the function beside it states the
    result, and the lemmas prove that result sorted, a permutation and stable. */
module Sorting {

  /** `cmp` orders values consistently: swapping the arguments flips the sign, and
      "not after" (`cmp(x, y) <= 0`) is transitive. The two facts are stated per argument
      tuple and used through `Flip` and `Trans`, one instance at a time. */
  ghost predicate IsTotalPreorder<T(!new)>(cmp: (T, T) -> int)
  {
    (forall x, y {:trigger FlipsAt(cmp, x, y)} :: FlipsAt(cmp, x, y))
    && (forall x, y, z {:trigger TransitiveAt(cmp, x, y, z)} :: TransitiveAt(cmp, x, y, z))
  }

  predicate FlipsAt<T>(cmp: (T, T) -> int, x: T, y: T)
  {
    (cmp(x, y) < 0 <==> cmp(y, x) > 0) && (cmp(x, y) == 0 <==> cmp(y, x) == 0)
  }

  predicate TransitiveAt<T>(cmp: (T, T) -> int, x: T, y: T, z: T)
  {
    cmp(x, y) <= 0 && cmp(y, z) <= 0 ==> cmp(x, z) <= 0
  }

  lemma Flip<T(!new)>(cmp: (T, T) -> int, x: T, y: T)
    requires IsTotalPreorder(cmp)
    ensures cmp(x, y) < 0 <==> cmp(y, x) > 0
    ensures cmp(x, y) == 0 <==> cmp(y, x) == 0
  {
    assert FlipsAt(cmp, x, y);
  }

  lemma Trans<T(!new)>(cmp: (T, T) -> int, x: T, y: T, z: T)
    requires IsTotalPreorder(cmp)
    ensures cmp(x, y) <= 0 && cmp(y, z) <= 0 ==> cmp(x, z) <= 0
  {
    assert TransitiveAt(cmp, x, y, z);
  }

  /** No element is followed by one that `cmp` puts before it. */
  predicate SortedBy<T>(s: seq<T>, cmp: (T, T) -> int)
  {
    forall i, j :: 0 <= i < j < |s| ==> cmp(s[i], s[j]) <= 0
  }

  /** `x` placed after the trailing elements of `s` it does not precede: moving left past
      every element the comparator puts after it, and no further. */
  function Insert<T>(s: seq<T>, x: T, cmp: (T, T) -> int): seq<T>
  {
    if s == [] then [x]
    else if cmp(s[|s| - 1], x) > 0 then Insert(s[..|s| - 1], x, cmp) + [s[|s| - 1]]
    else s + [x]
  }

  /** The stable sort of `s`: each element in turn inserted into the sorted prefix. */
  function InsertionSort<T>(s: seq<T>, cmp: (T, T) -> int): seq<T>
  {
    if s == [] then [] else Insert(InsertionSort(s[..|s| - 1], cmp), s[|s| - 1], cmp)
  }

  /** Sorts `a` in place by insertion: each element is shifted left past the elements the
      comparator places after it. */
  method SortInPlace<T>(a: array<T>, cmp: (T, T) -> int)
    modifies a
    ensures a[..] == InsertionSort(old(a[..]), cmp)
  {
    ghost var s := a[..];
    for i := 0 to a.Length
      invariant a[..i] == InsertionSort(s[..i], cmp)
      invariant a[i..] == s[i..]
    {
      InsertLeft(a, i, cmp);
      assert s[..i + 1][..i] == s[..i];
    }
    assert s[..a.Length] == s;
  }

  /** One step of the sort: `a[i]` moves into the sorted prefix `a[..i]`. */
  method InsertLeft<T>(a: array<T>, i: nat, cmp: (T, T) -> int)
    requires i < a.Length
    modifies a
    ensures a[..i + 1] == Insert(old(a[..i]), old(a[i]), cmp)
    ensures a[i + 1..] == old(a[i + 1..])
  {
    var x := a[i];
    ghost var orig := a[..];
    ghost var p := a[..i];
    var j := i;
    while j > 0 && cmp(a[j - 1], x) > 0
      invariant 0 <= j <= i
      invariant forall k :: 0 <= k < j ==> a[k] == orig[k]
      invariant forall k :: j < k <= i ==> a[k] == orig[k - 1]
      invariant forall k :: i < k < a.Length ==> a[k] == orig[k]
      invariant forall k :: j <= k < i ==> cmp(p[k], x) > 0
    {
      a[j] := a[j - 1];
      j := j - 1;
    }
    a[j] := x;
    Shifted(a[..], orig, i, j);
    InsertPosition(p, j, x, cmp);
  }

  /** The array after the shift: `orig[j..i]` moved one place right, `x` at `j`. */
  lemma Shifted<T>(b: seq<T>, orig: seq<T>, i: nat, j: nat)
    requires j <= i < |b| == |orig|
    requires forall k :: 0 <= k < j ==> b[k] == orig[k]
    requires forall k :: j < k <= i ==> b[k] == orig[k - 1]
    requires forall k :: i < k < |b| ==> b[k] == orig[k]
    ensures b[..i + 1] == orig[..i][..j] + [b[j]] + orig[..i][j..]
    ensures b[i + 1..] == orig[i + 1..]
  {
  }

  /** `x` goes right after the last element the comparator does not put after it. */
  lemma {:induction false} InsertPosition<T>(p: seq<T>, j: nat, x: T, cmp: (T, T) -> int)
    requires j <= |p| && (j == 0 || cmp(p[j - 1], x) <= 0)
    requires forall k :: j <= k < |p| ==> cmp(p[k], x) > 0
    ensures Insert(p, x, cmp) == p[..j] + [x] + p[j..]
  {
    if j == |p| {
      assert p[..j] == p && p[j..] == [];
    } else {
      var init := p[..|p| - 1];
      assert init[..j] == p[..j];
      InsertPosition(init, j, x, cmp);
      assert p[j..] == init[j..] + [p[|p| - 1]];
    }
  }

  // ---------------------------------------------------------------- the result

  /** Sorting only reorders: the result is a permutation of the input. */
  lemma {:induction false} InsertionSortPermutes<T>(s: seq<T>, cmp: (T, T) -> int)
    ensures multiset(InsertionSort(s, cmp)) == multiset(s)
  {
    if s != [] {
      var init := s[..|s| - 1];
      InsertionSortPermutes(init, cmp);
      InsertPermutes(InsertionSort(init, cmp), s[|s| - 1], cmp);
      assert s == init + [s[|s| - 1]];
    }
  }

  lemma {:induction false} InsertPermutes<T>(s: seq<T>, x: T, cmp: (T, T) -> int)
    ensures multiset(Insert(s, x, cmp)) == multiset(s) + multiset{x}
  {
    if s != [] && cmp(s[|s| - 1], x) > 0 {
      InsertPermutes(s[..|s| - 1], x, cmp);
      assert s == s[..|s| - 1] + [s[|s| - 1]];
    }
  }

  /** With a consistent comparator the result is sorted. */
  lemma {:induction false} InsertionSortSorted<T(!new)>(s: seq<T>, cmp: (T, T) -> int)
    requires IsTotalPreorder(cmp)
    ensures SortedBy(InsertionSort(s, cmp), cmp)
  {
    if s != [] {
      InsertionSortSorted(s[..|s| - 1], cmp);
      InsertSorted(InsertionSort(s[..|s| - 1], cmp), s[|s| - 1], cmp);
    }
  }

  lemma {:induction false} InsertSorted<T(!new)>(s: seq<T>, x: T, cmp: (T, T) -> int)
    requires IsTotalPreorder(cmp) && SortedBy(s, cmp)
    ensures SortedBy(Insert(s, x, cmp), cmp)
    ensures forall i :: 0 <= i < |Insert(s, x, cmp)| ==> Insert(s, x, cmp)[i] == x || Insert(s, x, cmp)[i] in s
  {
    if s == [] {
    } else if cmp(s[|s| - 1], x) > 0 {
      var init := s[..|s| - 1];
      var last := s[|s| - 1];
      InsertSorted(init, x, cmp);
      var r := Insert(init, x, cmp);
      forall k | 0 <= k < |r|
        ensures cmp(r[k], last) <= 0
      {
        if r[k] == x {
          Flip(cmp, last, x);
        } else {
          var m :| 0 <= m < |init| && init[m] == r[k];
          assert s[m] == init[m];
        }
      }
      assert Insert(s, x, cmp) == r + [last];
    } else {
      forall k | 0 <= k < |s|
        ensures cmp(s[k], x) <= 0
      {
        Trans(cmp, s[k], s[|s| - 1], x);
      }
      assert Insert(s, x, cmp) == s + [x];
    }
  }

  /** A sorted input is left as it is. */
  lemma {:induction false} SortSortedIsIdentity<T>(s: seq<T>, cmp: (T, T) -> int)
    requires SortedBy(s, cmp)
    ensures InsertionSort(s, cmp) == s
  {
    if s != [] {
      var init := s[..|s| - 1];
      var last := s[|s| - 1];
      assert SortedBy(init, cmp) by {
        forall i, j | 0 <= i < j < |init|
          ensures cmp(init[i], init[j]) <= 0
        {
          assert init[i] == s[i] && init[j] == s[j];
        }
      }
      SortSortedIsIdentity(init, cmp);
      assert |init| == 0 || (init[|init| - 1] == s[|s| - 2] && cmp(init[|init| - 1], last) <= 0);
      InsertPosition(init, |init|, last, cmp);
      assert init[..|init|] == init && init[|init|..] == [];
      assert s == init + [last];
    }
  }

  /** The elements `cmp` ranks equal to `y`, in their order. */
  function EquivalentsOf<T>(s: seq<T>, y: T, cmp: (T, T) -> int): seq<T>
  {
    if s == [] then [] else EquivalentsOf(s[..|s| - 1], y, cmp) + Equivalent(s[|s| - 1], y, cmp)
  }

  function Equivalent<T>(e: T, y: T, cmp: (T, T) -> int): seq<T>
  {
    if cmp(e, y) == 0 then [e] else []
  }

  lemma EquivalentsSnoc<T>(s: seq<T>, x: T, y: T, cmp: (T, T) -> int)
    ensures EquivalentsOf(s + [x], y, cmp) == EquivalentsOf(s, y, cmp) + Equivalent(x, y, cmp)
  {
    assert (s + [x])[..|s + [x]| - 1] == s;
  }

  /** Stability: elements the comparator ranks equal keep their original relative order. */
  lemma {:induction false} InsertionSortStable<T(!new)>(s: seq<T>, y: T, cmp: (T, T) -> int)
    requires IsTotalPreorder(cmp)
    ensures EquivalentsOf(InsertionSort(s, cmp), y, cmp) == EquivalentsOf(s, y, cmp)
  {
    if s != [] {
      var init := s[..|s| - 1];
      InsertionSortStable(init, y, cmp);
      InsertStable(InsertionSort(init, cmp), s[|s| - 1], y, cmp);
      EquivalentsSnoc(InsertionSort(init, cmp), s[|s| - 1], y, cmp);
    }
  }

  lemma {:induction false} InsertStable<T(!new)>(s: seq<T>, x: T, y: T, cmp: (T, T) -> int)
    requires IsTotalPreorder(cmp)
    ensures EquivalentsOf(Insert(s, x, cmp), y, cmp) == EquivalentsOf(s, y, cmp) + Equivalent(x, y, cmp)
  {
    if s == [] {
      EquivalentsSnoc([], x, y, cmp);
    } else if cmp(s[|s| - 1], x) > 0 {
      InsertStable(s[..|s| - 1], x, y, cmp);
      InsertStablePast(s, x, y, cmp);
    } else {
      EquivalentsSnoc(s, x, y, cmp);
    }
  }

  /** `x` moves past `last`, which it cannot be equivalent to `y` together with. */
  lemma InsertStablePast<T(!new)>(s: seq<T>, x: T, y: T, cmp: (T, T) -> int)
    requires IsTotalPreorder(cmp) && s != [] && cmp(s[|s| - 1], x) > 0
    requires EquivalentsOf(Insert(s[..|s| - 1], x, cmp), y, cmp) == EquivalentsOf(s[..|s| - 1], y, cmp) + Equivalent(x, y, cmp)
    ensures EquivalentsOf(Insert(s, x, cmp), y, cmp) == EquivalentsOf(s, y, cmp) + Equivalent(x, y, cmp)
  {
    var init := s[..|s| - 1];
    var last := s[|s| - 1];
    var r := Insert(init, x, cmp);
    var ex := Equivalent(x, y, cmp);
    var el := Equivalent(last, y, cmp);
    assert Insert(s, x, cmp) == r + [last];
    EquivalentsSnoc(r, last, y, cmp);
    assert EquivalentsOf(s, y, cmp) == EquivalentsOf(init, y, cmp) + el;
    NotBothEquivalent(x, last, y, cmp);
    AppendEither(EquivalentsOf(init, y, cmp), ex, el);
  }

  lemma AppendEither<T>(a: seq<T>, b: seq<T>, c: seq<T>)
    requires b == [] || c == []
    ensures a + b + c == a + c + b
  {
    if b == [] {
      assert a + b == a && a + c + b == a + c;
    } else {
      assert a + c == a && a + b + c == a + b;
    }
  }

  lemma NotBothEquivalent<T(!new)>(x: T, last: T, y: T, cmp: (T, T) -> int)
    requires IsTotalPreorder(cmp) && cmp(last, x) > 0
    ensures Equivalent(x, y, cmp) == [] || Equivalent(last, y, cmp) == []
  {
    Flip(cmp, x, y);
    Trans(cmp, last, y, x);
  }
}
