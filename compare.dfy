/** The comparison of two lists of test reports (src/AtxCompareView.tsx): a greedy diff that
    pairs each report of the reference list A with a report of B, the plan-overlap matcher
    that drives it, and the regressed / improved test cases of every pair of plans. */
module AtxCompare {
  import opened Wrappers
  import opened AtxTypes
  import opened AtxStats
  import Seqs

  // ---------------------------------------------------------------- getDiff

  /** The three lists `getDiff` returns. */
  datatype Diff<T> = Diff(newInB: seq<T>, common: seq<(T, T)>, missingInB: seq<T>)

  /** A matcher that answers with an index into the array it is given, or a negative value
      for "no match". */
  ghost predicate IndexOrMissing<T(!new)>(findIndex: (seq<T>, T) -> int)
  {
    forall arr, el :: findIndex(arr, el) < |arr|
  }

  function Firsts<T>(ps: seq<(T, T)>): (r: seq<T>)
    ensures |r| == |ps| && forall i :: 0 <= i < |ps| ==> r[i] == ps[i].0
  {
    seq(|ps|, i requires 0 <= i < |ps| => ps[i].0)
  }

  function Seconds<T>(ps: seq<(T, T)>): (r: seq<T>)
    ensures |r| == |ps| && forall i :: 0 <= i < |ps| ==> r[i] == ps[i].1
  {
    seq(|ps|, i requires 0 <= i < |ps| => ps[i].1)
  }

  /** `getDiff(a, b, findIndex)`: each element of A, in order, takes the B element the
      matcher picks out of what is left of B, or is missing in B. */
  function GetDiffSpec<T(!new)>(a: seq<T>, b: seq<T>, findIndex: (seq<T>, T) -> int): Diff<T>
    requires IndexOrMissing(findIndex)
  {
    if a == [] then Diff(b, [], [])
    else
      var d := GetDiffSpec(a[..|a| - 1], b, findIndex);
      var eA := a[|a| - 1];
      var eBIdx := findIndex(d.newInB, eA);
      if eBIdx >= 0 then
        Diff(d.newInB[..eBIdx] + d.newInB[eBIdx + 1..], d.common + [(eA, d.newInB[eBIdx])], d.missingInB)
      else Diff(d.newInB, d.common, d.missingInB + [eA])
  }

  method GetDiff<T(!new)>(a: seq<T>, b: seq<T>, findIndex: (seq<T>, T) -> int)
      returns (newInB: seq<T>, common: seq<(T, T)>, missingInB: seq<T>)
    requires IndexOrMissing(findIndex)
    ensures Diff(newInB, common, missingInB) == GetDiffSpec(a, b, findIndex)
  {
    newInB := b;
    common := [];
    missingInB := [];
    for i := 0 to |a|
      invariant Diff(newInB, common, missingInB) == GetDiffSpec(a[..i], b, findIndex)
    {
      assert a[..i + 1][..i] == a[..i];
      var eA := a[i];
      var eBIdx := findIndex(newInB, eA);
      if eBIdx >= 0 {
        var eB := newInB[eBIdx];
        newInB := newInB[..eBIdx] + newInB[eBIdx + 1..];
        common := common + [(eA, eB)];
      } else {
        missingInB := missingInB + [eA];
      }
    }
    assert a[..|a|] == a;
  }

  /** Every element of A lands exactly once, either as the first half of a common pair or in
      `missingInB`, and both lists follow A's order. */
  lemma {:induction false} DiffPartitionsA<T(!new)>(a: seq<T>, b: seq<T>, findIndex: (seq<T>, T) -> int)
    requires IndexOrMissing(findIndex)
    ensures Seqs.Interleaves(a, Firsts(GetDiffSpec(a, b, findIndex).common), GetDiffSpec(a, b, findIndex).missingInB)
  {
    if a != [] {
      var init := a[..|a| - 1];
      DiffPartitionsA(init, b, findIndex);
      var d := GetDiffSpec(init, b, findIndex);
      var d' := GetDiffSpec(a, b, findIndex);
      var eBIdx := findIndex(d.newInB, a[|a| - 1]);
      if eBIdx >= 0 {
        assert Firsts(d'.common)[..|d'.common| - 1] == Firsts(d.common);
      } else {
        assert d'.missingInB[..|d'.missingInB| - 1] == d.missingInB;
      }
    }
  }

  lemma RemoveAt<T>(s: seq<T>, k: nat)
    requires k < |s|
    ensures multiset(s) == multiset(s[..k] + s[k + 1..]) + multiset{s[k]}
    ensures Seqs.IsSubseq(s[..k] + s[k + 1..], s)
  {
    assert s[..k] + s[k..] == s;
    assert s[k..] == [s[k]] + s[k + 1..];
    Seqs.RemoveIsSubseq(s, k);
  }

  /** All of B is accounted for: each B element is matched at most once, the unmatched
      ones stay in `newInB` in B's order. */
  lemma {:induction false} DiffAccountsForB<T(!new)>(a: seq<T>, b: seq<T>, findIndex: (seq<T>, T) -> int)
    requires IndexOrMissing(findIndex)
    ensures var d := GetDiffSpec(a, b, findIndex);
            |d.common| + |d.newInB| == |b|
            && multiset(Seconds(d.common)) + multiset(d.newInB) == multiset(b)
            && Seqs.IsSubseq(d.newInB, b)
  {
    if a == [] {
      Seqs.SubseqRefl(b);
    } else {
      var init := a[..|a| - 1];
      DiffAccountsForB(init, b, findIndex);
      var d := GetDiffSpec(init, b, findIndex);
      var eBIdx := findIndex(d.newInB, a[|a| - 1]);
      if eBIdx >= 0 {
        var d' := GetDiffSpec(a, b, findIndex);
        RemoveAt(d.newInB, eBIdx);
        Seqs.SubseqTrans(d'.newInB, d.newInB, b);
        assert Seconds(d'.common) == Seconds(d.common) + [d.newInB[eBIdx]];
      }
    }
  }

  /** With a matcher that never matches, everything of A is missing and all of B is new. */
  lemma {:induction false} DiffWithoutMatches<T(!new)>(a: seq<T>, b: seq<T>, findIndex: (seq<T>, T) -> int)
    requires IndexOrMissing(findIndex)
    requires forall arr, i :: 0 <= i < |a| ==> findIndex(arr, a[i]) < 0
    ensures GetDiffSpec(a, b, findIndex) == Diff(b, [], a)
  {
    if a != [] {
      var init := a[..|a| - 1];
      DiffWithoutMatches(init, b, findIndex);
      assert init + [a[|a| - 1]] == a;
    }
  }

  // ---------------------------------------------------------------- findIndexMatchingTPs

  /** `plannedTcsA.findIndex(v => v.shortName === name) >= 0`. */
  predicate HasPlannedName(ps: seq<PlannedTestCase>, name: string)
  {
    exists j :: 0 <= j < |ps| && ps[j].shortName == name
  }

  /** The `reduce` that counts the planned test cases of `ps` whose name occurs in `psA`. */
  function MatchCount(ps: seq<PlannedTestCase>, psA: seq<PlannedTestCase>): nat
  {
    if ps == [] then 0
    else MatchCount(ps[..|ps| - 1], psA) + (if HasPlannedName(psA, ps[|ps| - 1].shortName) then 1 else 0)
  }

  /** The count is the size of the overlap: the planned cases of the report whose name occurs
      among the candidate's. */
  lemma {:induction false} MatchCountIsOverlap(ps: seq<PlannedTestCase>, psA: seq<PlannedTestCase>)
    ensures MatchCount(ps, psA) == |Seqs.Filter(ps, (p: PlannedTestCase) => HasPlannedName(psA, p.shortName))|
  {
    if ps != [] {
      MatchCountIsOverlap(ps[..|ps| - 1], psA);
    }
  }

  lemma {:induction false} MatchCountOfNothing(psA: seq<PlannedTestCase>)
    ensures MatchCount([], psA) == 0
  {
  }

  /** `arrOfNrMatchingTcs`: the overlap of `rep`'s plan with each candidate's plan. */
  function Overlaps(arr: seq<TestReport>, rep: TestReport): (r: seq<nat>)
    ensures |r| == |arr|
    ensures forall i :: 0 <= i < |arr| ==> r[i] == MatchCount(GetPlannedTestCases(rep.plan), GetPlannedTestCases(arr[i].plan))
  {
    seq(|arr|, i requires 0 <= i < |arr| => MatchCount(GetPlannedTestCases(rep.plan), GetPlannedTestCases(arr[i].plan)))
  }

  /** The `reduce` from index 0 that replaces the candidate only on a strictly greater value:
      the first index holding the maximum. */
  function FirstMaxIndex(xs: seq<int>): (r: nat)
    requires |xs| > 0
    ensures r < |xs|
    ensures forall j :: 0 <= j < |xs| ==> xs[j] <= xs[r]
    ensures forall j :: 0 <= j < r ==> xs[j] < xs[r]
  {
    if |xs| == 1 then 0
    else
      var m := FirstMaxIndex(xs[..|xs| - 1]);
      if xs[|xs| - 1] > xs[m] then |xs| - 1 else m
  }

  /** `findIndexMatchingTPs`: the first candidate with the largest plan overlap, or -1 when
      there is no candidate or no overlap at all. */
  function FindIndexMatchingTPs(arr: seq<TestReport>, rep: TestReport): (r: int)
    ensures -1 <= r < |arr|
    ensures r == -1 <==> forall i :: 0 <= i < |arr| ==> Overlaps(arr, rep)[i] == 0
    ensures r >= 0 ==> Overlaps(arr, rep)[r] > 0
                       && (forall j :: 0 <= j < |arr| ==> Overlaps(arr, rep)[j] <= Overlaps(arr, rep)[r])
                       && (forall j :: 0 <= j < r ==> Overlaps(arr, rep)[j] < Overlaps(arr, rep)[r])
  {
    if |arr| < 1 then -1
    else
      var counts := Overlaps(arr, rep);
      var maxIdx := FirstMaxIndex(counts);
      if counts[maxIdx] > 0 then maxIdx else -1
  }

  lemma FindIndexMatchingTPsInRange()
    ensures IndexOrMissing(FindIndexMatchingTPs)
  {
  }

  /** The test plans of A paired with those of B (`tpNewInB`, `tpCommon`, `tpMissingInB`). */
  function PlanDiff(a: seq<TestReport>, b: seq<TestReport>): (r: Diff<TestReport>)
    ensures Seqs.Interleaves(a, Firsts(r.common), r.missingInB)
    ensures |r.common| + |r.newInB| == |b| && multiset(Seconds(r.common)) + multiset(r.newInB) == multiset(b)
  {
    FindIndexMatchingTPsInRange();
    DiffPartitionsA(a, b, FindIndexMatchingTPs);
    DiffAccountsForB(a, b, FindIndexMatchingTPs);
    GetDiffSpec(a, b, FindIndexMatchingTPs)
  }

  /** A plan without planned test cases overlaps with nothing and is never matched. */
  lemma NoPlannedCasesNoMatch(arr: seq<TestReport>, rep: TestReport)
    requires GetPlannedTestCases(rep.plan) == []
    ensures FindIndexMatchingTPs(arr, rep) == -1
  {
    forall i | 0 <= i < |arr|
      ensures Overlaps(arr, rep)[i] == 0
    {
      MatchCountOfNothing(GetPlannedTestCases(arr[i].plan));
    }
  }

  /** The reports the parser builds have plans of folders only, so no two of them are ever
      paired: every plan of A is missing in B and every plan of B is new. */
  lemma ParsedPlansNeverPaired(a: seq<TestReport>, b: seq<TestReport>)
    requires forall i :: 0 <= i < |a| ==> FoldersOnly(a[i].plan)
    ensures PlanDiff(a, b) == Diff(b, [], a)
  {
    FindIndexMatchingTPsInRange();
    forall arr, i | 0 <= i < |a|
      ensures FindIndexMatchingTPs(arr, a[i]) < 0
    {
      FoldersOnlyHasNoPlannedCases(a[i].plan);
      NoPlannedCasesNoMatch(arr, a[i]);
    }
    DiffWithoutMatches(a, b, FindIndexMatchingTPs);
  }

  // ---------------------------------------------------------------- common test cases

  /** The `find` condition: A's case has a truthy `originRef` equal to B's, and the same name. */
  predicate IsPartner(aTC: TestCase, tc: TestCase)
  {
    aTC.originRef.Some? && aTC.originRef.value != "" && aTC.originRef == tc.originRef && aTC.shortName == tc.shortName
  }

  /** Position of the first partner of `tc` in `tcsA`: the case `tcsA.find` returns. */
  function FirstPartner(tcsA: seq<TestCase>, tc: TestCase): (r: Option<nat>)
    ensures r.Some? ==> r.value < |tcsA| && IsPartner(tcsA[r.value], tc)
    ensures r.Some? ==> forall j :: 0 <= j < r.value ==> !IsPartner(tcsA[j], tc)
    ensures r.None? ==> forall j :: 0 <= j < |tcsA| ==> !IsPartner(tcsA[j], tc)
  {
    if tcsA == [] then None
    else if IsPartner(tcsA[0], tc) then Some(0)
    else match FirstPartner(tcsA[1..], tc)
      case Some(i) => Some(i + 1)
      case None => None
  }

  /** `commonTCs`: for each B case with a partner, in B order, the pair (partner, case). */
  function CommonPairs(tcsA: seq<TestCase>, tcsB: seq<TestCase>): seq<(TestCase, TestCase)>
  {
    if tcsB == [] then []
    else
      var tc := tcsB[|tcsB| - 1];
      CommonPairs(tcsA, tcsB[..|tcsB| - 1]) + (match FirstPartner(tcsA, tc) case Some(k) => [(tcsA[k], tc)] case None => [])
  }

  method CommonTestCases(tcsA: seq<TestCase>, tcsB: seq<TestCase>) returns (commonTCs: seq<(TestCase, TestCase)>)
    ensures commonTCs == CommonPairs(tcsA, tcsB)
  {
    commonTCs := [];
    for i := 0 to |tcsB|
      invariant commonTCs == CommonPairs(tcsA, tcsB[..i])
    {
      assert tcsB[..i + 1][..i] == tcsB[..i];
      var tc := tcsB[i];
      var aTC := FirstPartner(tcsA, tc);
      if aTC.Some? {
        commonTCs := commonTCs + [(tcsA[aTC.value], tc)];
      }
    }
    assert tcsB[..|tcsB|] == tcsB;
  }

  /** Every common pair is a case of A with its B partner, the B half taken from B. */
  lemma {:induction false} CommonPairsArePartners(tcsA: seq<TestCase>, tcsB: seq<TestCase>)
    ensures forall p :: p in CommonPairs(tcsA, tcsB) ==> p.0 in tcsA && p.1 in tcsB && IsPartner(p.0, p.1)
  {
    if tcsB != [] {
      var init := tcsB[..|tcsB| - 1];
      CommonPairsArePartners(tcsA, init);
      assert forall x :: x in init ==> x in tcsB;
    }
  }

  /** The B halves of the common pairs keep B's order. */
  lemma {:induction false} CommonPairsKeepOrder(tcsA: seq<TestCase>, tcsB: seq<TestCase>)
    ensures Seqs.IsSubseq(Seconds(CommonPairs(tcsA, tcsB)), tcsB)
  {
    if tcsB != [] {
      var init := tcsB[..|tcsB| - 1];
      CommonPairsKeepOrder(tcsA, init);
      var c := CommonPairs(tcsA, init);
      var c' := CommonPairs(tcsA, tcsB);
      if FirstPartner(tcsA, tcsB[|tcsB| - 1]).Some? {
        assert Seconds(c')[..|c'| - 1] == Seconds(c);
      } else {
        assert c' == c;
      }
    }
  }

  /** Every B case that has a partner in A appears in a common pair. */
  lemma {:induction false} CommonPairsComplete(tcsA: seq<TestCase>, tcsB: seq<TestCase>, j: nat, k: nat)
    requires j < |tcsB| && k < |tcsA| && IsPartner(tcsA[k], tcsB[j])
    ensures tcsB[j] in Seconds(CommonPairs(tcsA, tcsB))
  {
    var init := tcsB[..|tcsB| - 1];
    var c := CommonPairs(tcsA, init);
    var c' := CommonPairs(tcsA, tcsB);
    if j < |tcsB| - 1 {
      CommonPairsComplete(tcsA, init, j, k);
      var m :| 0 <= m < |c| && Seconds(c)[m] == tcsB[j];
      assert c'[..|c|] == c;
      assert Seconds(c')[m] == tcsB[j];
    } else {
      assert Seconds(c')[|c'| - 1] == tcsB[j];
    }
  }

  // ---------------------------------------------------------------- regressed / improved

  predicate VerdictDiffers(p: (TestCase, TestCase))
  {
    p.0.verdict != p.1.verdict
  }

  predicate PassedInA(p: (TestCase, TestCase))
  {
    p.0.verdict == "PASSED"
  }

  predicate NotPassedInA(p: (TestCase, TestCase))
  {
    p.0.verdict != "PASSED"
  }

  predicate PassedInB(p: (TestCase, TestCase))
  {
    p.1.verdict == "PASSED"
  }

  predicate DiffersNotPassedInA(p: (TestCase, TestCase))
  {
    VerdictDiffers(p) && NotPassedInA(p)
  }

  /** Passing in the reference A, not passing in B. */
  predicate IsRegression(p: (TestCase, TestCase))
  {
    p.0.verdict == "PASSED" && p.1.verdict != "PASSED"
  }

  /** Not passing in the reference A, passing in B. */
  predicate IsImprovement(p: (TestCase, TestCase))
  {
    p.0.verdict != "PASSED" && p.1.verdict == "PASSED"
  }

  /** The `reduce` that sends a pair to the first list when A passed and to the second
      otherwise. */
  method SplitByVerdictInA(differing: seq<(TestCase, TestCase)>)
      returns (passedInA: seq<(TestCase, TestCase)>, notPassedInA: seq<(TestCase, TestCase)>)
    ensures passedInA == Seqs.Filter(differing, PassedInA)
    ensures notPassedInA == Seqs.Filter(differing, NotPassedInA)
  {
    passedInA := [];
    notPassedInA := [];
    for i := 0 to |differing|
      invariant passedInA == Seqs.Filter(differing[..i], PassedInA)
      invariant notPassedInA == Seqs.Filter(differing[..i], NotPassedInA)
    {
      assert differing[..i + 1][..i] == differing[..i];
      if differing[i].0.verdict == "PASSED" {
        passedInA := passedInA + [differing[i]];
      } else {
        notPassedInA := notPassedInA + [differing[i]];
      }
    }
    assert differing[..|differing|] == differing;
  }

  /** The `filter` on differing verdicts, the split on A's verdict, then `improved.filter`
      on B passing. */
  method ClassifyCommon(commonTCs: seq<(TestCase, TestCase)>)
      returns (regressed: seq<(TestCase, TestCase)>, improved: seq<(TestCase, TestCase)>)
    ensures regressed == Seqs.Filter(commonTCs, IsRegression)
    ensures improved == Seqs.Filter(commonTCs, IsImprovement)
  {
    var differing := Seqs.Filter(commonTCs, VerdictDiffers);
    var improvedRaw;
    regressed, improvedRaw := SplitByVerdictInA(differing);
    improved := Seqs.Filter(improvedRaw, PassedInB);
    Seqs.FilterTwice(commonTCs, VerdictDiffers, PassedInA, IsRegression);
    Seqs.FilterTwice(commonTCs, VerdictDiffers, NotPassedInA, DiffersNotPassedInA);
    Seqs.FilterTwice(commonTCs, DiffersNotPassedInA, PassedInB, IsImprovement);
  }

  /** No pair is both regressed and improved, and a pair whose verdicts agree is in neither. */
  lemma ClassificationDisjoint(commonTCs: seq<(TestCase, TestCase)>, p: (TestCase, TestCase))
    ensures !(p in Seqs.Filter(commonTCs, IsRegression) && p in Seqs.Filter(commonTCs, IsImprovement))
    ensures p.0.verdict == p.1.verdict ==>
              p !in Seqs.Filter(commonTCs, IsRegression) && p !in Seqs.Filter(commonTCs, IsImprovement)
  {
    if p in Seqs.Filter(commonTCs, IsRegression) {
      var i :| 0 <= i < |Seqs.Filter(commonTCs, IsRegression)| && Seqs.Filter(commonTCs, IsRegression)[i] == p;
    }
    if p in Seqs.Filter(commonTCs, IsImprovement) {
      var i :| 0 <= i < |Seqs.Filter(commonTCs, IsImprovement)| && Seqs.Filter(commonTCs, IsImprovement)[i] == p;
    }
  }

  /** The regressed and improved test cases of one pair of reports. */
  function PairChanges(tp: (TestReport, TestReport)): (seq<(TestCase, TestCase)>, seq<(TestCase, TestCase)>)
  {
    var common := CommonPairs(GetTestCases(tp.0.root), GetTestCases(tp.1.root));
    (Seqs.Filter(common, IsRegression), Seqs.Filter(common, IsImprovement))
  }

  /** `regressedImprovedTPTCs`: one (regressed, improved) entry per common plan pair, in the
      order of `tpCommon`. */
  method RegressedImprovedTPTCs(tpCommon: seq<(TestReport, TestReport)>)
      returns (res: seq<(seq<(TestCase, TestCase)>, seq<(TestCase, TestCase)>)>)
    ensures |res| == |tpCommon|
    ensures forall i :: 0 <= i < |tpCommon| ==> res[i] == PairChanges(tpCommon[i])
  {
    res := [];
    for i := 0 to |tpCommon|
      invariant |res| == i
      invariant forall k :: 0 <= k < i ==> res[k] == PairChanges(tpCommon[k])
    {
      var (tpA, tpB) := tpCommon[i];
      var tcsA := GetTestCases(tpA.root);
      var tcsB := GetTestCases(tpB.root);
      var commonTCs := CommonTestCases(tcsA, tcsB);
      var regressed, improved := ClassifyCommon(commonTCs);
      res := res + [(regressed, improved)];
    }
  }

  // ---------------------------------------------------------------- comparing a run with itself

  /** When partners always agree on their verdict (for instance when no two cases share an
      `originRef` and a name), a run compared with itself shows no change. */
  lemma SelfCompareNoChanges(tcs: seq<TestCase>)
    requires forall x, y :: x in tcs && y in tcs && IsPartner(x, y) ==> x.verdict == y.verdict
    ensures Seqs.Filter(CommonPairs(tcs, tcs), IsRegression) == []
    ensures Seqs.Filter(CommonPairs(tcs, tcs), IsImprovement) == []
  {
    var c := CommonPairs(tcs, tcs);
    CommonPairsArePartners(tcs, tcs);
    assert forall i :: 0 <= i < |c| ==> c[i] in c;
    Seqs.FilterNothing(c, IsRegression);
    Seqs.FilterNothing(c, IsImprovement);
  }

  /** Two runs of one test case that share `originRef` and name, one passing, one failing. */
  const SharedPassed := TestCase("tc", None, None, None, None, "PASSED", Some("ref"), [], [], map[])
  const SharedFailed := SharedPassed.(verdict := "FAILED")

  lemma SharedKeyPairs()
    ensures CommonPairs([SharedPassed, SharedFailed], [SharedPassed, SharedFailed])
         == [(SharedPassed, SharedPassed), (SharedPassed, SharedFailed)]
  {
    var tcs := [SharedPassed, SharedFailed];
    assert FirstPartner(tcs, SharedPassed) == Some(0);
    assert FirstPartner(tcs, SharedFailed) == Some(0);
    assert tcs[..1] == [SharedPassed] && [SharedPassed][..0] == [];
    assert CommonPairs(tcs, [SharedPassed]) == [(SharedPassed, SharedPassed)];
  }

  /** Both B cases are paired with the first A case, so a run compared with itself reports a
      regression. */
  lemma SelfCompareWithSharedKey()
    ensures Seqs.Filter(CommonPairs([SharedPassed, SharedFailed], [SharedPassed, SharedFailed]), IsRegression)
         == [(SharedPassed, SharedFailed)]
  {
    SharedKeyPairs();
    var c := [(SharedPassed, SharedPassed), (SharedPassed, SharedFailed)];
    assert c[..1] == [(SharedPassed, SharedPassed)] && c[..1][..0] == [];
    assert Seqs.Filter(c[..1], IsRegression) == [];
  }
}
