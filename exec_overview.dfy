/** The execution overview (src/AtxExecOverview.tsx): the longest common prefix of the report names and
    the title built from it, the summed statistics of all reports, the list of all their test
    cases and the selection a click on a slice of the summary pie shows. */
module AtxExecOverview {
  import opened Text
  import opened AtxTypes
  import opened AtxStats
  import Seqs
  import Sorting

  // ---------------------------------------------------------------- longestCommonPrefix

  /** The comparator `(a, b) => a.length - b.length`. */
  function CompareLengths(a: string, b: string): int
  {
    |a| - |b|
  }

  lemma CompareLengthsIsTotalPreorder()
    ensures Sorting.IsTotalPreorder(CompareLengths)
  {
    forall x, y
      ensures Sorting.FlipsAt(CompareLengths, x, y)
    {
    }
    forall x, y, z
      ensures Sorting.TransitiveAt(CompareLengths, x, y, z)
    {
    }
  }

  /** `strs.every((str) => str.startsWith(p))`. */
  predicate IsCommonPrefix(p: string, strs: seq<string>)
  {
    forall i :: 0 <= i < |strs| ==> StartsWith(strs[i], p)
  }

  /** The longest common prefix of two strings, scanning from the front. */
  function CommonPrefix(a: string, b: string): (r: string)
    ensures r <= a && r <= b
    ensures |r| == |a| || |r| == |b| || a[|r|] != b[|r|]
  {
    if a == [] || b == [] || a[0] != b[0] then ""
    else [a[0]] + CommonPrefix(a[1..], b[1..])
  }

  /** A string that is a prefix of both `a` and `b` is a prefix of their common prefix. */
  lemma {:induction false} CommonPrefixIsLongest(a: string, b: string, p: string)
    requires p <= a && p <= b
    ensures p <= CommonPrefix(a, b)
  {
    if p != [] {
      CommonPrefixIsLongest(a[1..], b[1..], p[1..]);
    }
  }

  /** The longest common prefix of a list of strings, folding `CommonPrefix` over the list;
      `""` for the empty list. */
  function Lcp(strs: seq<string>): string
  {
    if strs == [] then ""
    else if |strs| == 1 then strs[0]
    else CommonPrefix(Lcp(strs[..|strs| - 1]), strs[|strs| - 1])
  }

  /** `Lcp` is a prefix of every string, and every common prefix is a prefix of it. */
  lemma {:induction false} LcpIsLongest(strs: seq<string>)
    ensures IsCommonPrefix(Lcp(strs), strs)
    ensures strs != [] ==> forall p :: IsCommonPrefix(p, strs) ==> p <= Lcp(strs)
  {
    if |strs| > 1 {
      var init := strs[..|strs| - 1];
      var last := strs[|strs| - 1];
      LcpIsLongest(init);
      assert forall i :: 0 <= i < |init| ==> strs[i] == init[i];
      forall p | IsCommonPrefix(p, strs)
        ensures p <= Lcp(strs)
      {
        assert IsCommonPrefix(p, init);
        assert StartsWith(last, p);
        CommonPrefixIsLongest(Lcp(init), last, p);
      }
      forall i | 0 <= i < |strs|
        ensures StartsWith(strs[i], Lcp(strs))
      {
        if i < |init| {
          assert StartsWith(init[i], Lcp(init));
        }
      }
    }
  }

  /** Common prefixes depend on the strings only, not on their order or multiplicity. */
  lemma CommonPrefixOfPermutation(p: string, a: seq<string>, b: seq<string>)
    requires multiset(a) == multiset(b)
    ensures IsCommonPrefix(p, a) <==> IsCommonPrefix(p, b)
  {
    if IsCommonPrefix(p, a) {
      forall i | 0 <= i < |b|
        ensures StartsWith(b[i], p)
      {
        assert b[i] in multiset(a);
        var j :| 0 <= j < |a| && a[j] == b[i];
      }
    }
    if IsCommonPrefix(p, b) {
      forall i | 0 <= i < |a|
        ensures StartsWith(a[i], p)
      {
        assert a[i] in multiset(b);
        var j :| 0 <= j < |b| && b[j] == a[i];
      }
    }
  }

  /** A common prefix that is a prefix of the member `w`, no longer prefix of `w` being common,
      is the longest common prefix. */
  lemma LcpUnique(strs: seq<string>, w: string, p: string)
    requires w in strs && p <= w && IsCommonPrefix(p, strs)
    requires forall k :: |p| < k <= |w| ==> !IsCommonPrefix(w[..k], strs)
    ensures p == Lcp(strs)
  {
    LcpIsLongest(strs);
    var l := Lcp(strs);
    assert p <= l;
    var j :| 0 <= j < |strs| && strs[j] == w;
    assert StartsWith(strs[j], l);
    assert w[..|l|] == l;
  }

  /** `longestCommonPrefix(strs)`: sorts `strs` in place by length, then shortens the shortest
      string until every string starts with it. */
  method LongestCommonPrefix(strs: array<string>) returns (r: string)
    modifies strs
    ensures strs[..] == Sorting.InsertionSort(old(strs[..]), CompareLengths)
    ensures r == Lcp(old(strs[..]))
  {
    if strs.Length == 0 {
      return "";
    }
    ghost var s0 := strs[..];
    Sorting.SortInPlace(strs, CompareLengths);
    Sorting.InsertionSortPermutes(s0, CompareLengths);
    var shortestStr := strs[0];
    assert shortestStr in multiset(s0) by {
      assert strs[..][0] == shortestStr;
    }
    while !IsCommonPrefix(shortestStr, strs[..])
      invariant shortestStr <= strs[0]
      invariant forall k :: |shortestStr| < k <= |strs[0]| ==> !IsCommonPrefix(strs[0][..k], strs[..])
      decreases |shortestStr|
    {
      assert shortestStr != "";
      shortestStr := shortestStr[..|shortestStr| - 1];
    }
    CommonPrefixOfPermutation(shortestStr, s0, strs[..]);
    forall k | |shortestStr| < k <= |strs[0]|
      ensures !IsCommonPrefix(strs[0][..k], s0)
    {
      CommonPrefixOfPermutation(strs[0][..k], s0, strs[..]);
    }
    LcpUnique(s0, strs[0], shortestStr);
    r := shortestStr;
  }

  // ---------------------------------------------------------------- reportTitle

  /** `reports.map(r => getReportTestName(r))`. */
  function ReportNames(reports: seq<TestReport>): (r: seq<string>)
    ensures |r| == |reports| && forall i :: 0 <= i < |reports| ==> r[i] == ReportTestName(reports[i])
  {
    seq(|reports|, i requires 0 <= i < |reports| => ReportTestName(reports[i]))
  }

  /** `s.slice(n)` for `n >= 0`. */
  function Slice(s: string, n: nat): string
  {
    if n <= |s| then s[n..] else ""
  }

  /** `names.map(n => '-' + n.slice(n0))`. */
  function Suffixes(names: seq<string>, n0: nat): (r: seq<string>)
    ensures |r| == |names| && forall i :: 0 <= i < |names| ==> r[i] == "-" + Slice(names[i], n0)
  {
    seq(|names|, i requires 0 <= i < |names| => "-" + Slice(names[i], n0))
  }

  /** The names as `longestCommonPrefix` leaves them, sorted in place by length. */
  function TitleNames(names: seq<string>): seq<string>
  {
    Sorting.InsertionSort(names, CompareLengths)
  }

  /** `reportTitle`: a single name as is; otherwise the common prefix, `.. ` and each name's rest
      after a `-`, or, without a common prefix, the names themselves, all joined with `, `. The
      names appear in the order `longestCommonPrefix` sorted them to. */
  function ReportTitle(reports: seq<TestReport>): string
  {
    var names := ReportNames(reports);
    if |names| == 1 then names[0]
    else
      var comPrefix := Lcp(names);
      if |comPrefix| > 0 then comPrefix + ".. " + Join(", ", Suffixes(TitleNames(names), |comPrefix|))
      else Join(", ", TitleNames(names))
  }

  lemma ReportTitleOfOne(report: TestReport)
    ensures ReportTitle([report]) == ReportTestName(report)
  {
  }

  /** The title lists every name once, shortest first; with a common prefix, prefix and listed
      rest rebuild each name. */
  lemma TitleNamesSpec(reports: seq<TestReport>)
    ensures multiset(TitleNames(ReportNames(reports))) == multiset(ReportNames(reports))
    ensures Sorting.SortedBy(TitleNames(ReportNames(reports)), CompareLengths)
    ensures forall n :: 0 <= n < |TitleNames(ReportNames(reports))| ==>
              Lcp(ReportNames(reports)) + Slice(TitleNames(ReportNames(reports))[n], |Lcp(ReportNames(reports))|)
              == TitleNames(ReportNames(reports))[n]
  {
    var names := ReportNames(reports);
    var sorted := TitleNames(names);
    CompareLengthsIsTotalPreorder();
    Sorting.InsertionSortPermutes(names, CompareLengths);
    Sorting.InsertionSortSorted(names, CompareLengths);
    LcpIsLongest(names);
    CommonPrefixOfPermutation(Lcp(names), names, sorted);
    forall n | 0 <= n < |sorted|
      ensures Lcp(names) + Slice(sorted[n], |Lcp(names)|) == sorted[n]
    {
      assert StartsWith(sorted[n], Lcp(names));
    }
  }

  /** Names of the same length as `name` are listed in report order. */
  lemma TitleNamesStable(reports: seq<TestReport>, name: string)
    ensures Sorting.EquivalentsOf(TitleNames(ReportNames(reports)), name, CompareLengths)
         == Sorting.EquivalentsOf(ReportNames(reports), name, CompareLengths)
  {
    CompareLengthsIsTotalPreorder();
    Sorting.InsertionSortStable(ReportNames(reports), name, CompareLengths);
  }

  /** `reportTitle.slice(-1000)`: the title as displayed, its last 1000 characters. */
  function ShownTitle(title: string): (r: string)
    ensures |r| == if |title| <= 1000 then |title| else 1000
    ensures EndsWith(title, r)
  {
    if |title| <= 1000 then title else title[|title| - 1000..]
  }

  // ---------------------------------------------------------------- sumStats / detailTcs

  /** The component-wise sum of `getFolderStats(report.root)` over the reports. */
  function ReportsStats(reports: seq<TestReport>): SummaryStats
  {
    if reports == [] then ZeroStats
    else Plus(ReportsStats(reports[..|reports| - 1]), CasesStats(GetTestCases(reports[|reports| - 1].root)))
  }

  /** The effect that computes `sumStats`. */
  method SumStats(reports: seq<TestReport>) returns (sumStats: SummaryStats)
    ensures sumStats == ReportsStats(reports)
  {
    sumStats := ZeroStats;
    for i := 0 to |reports|
      invariant sumStats == ReportsStats(reports[..i])
    {
      assert reports[..i + 1][..i] == reports[..i];
      var stat := GetFolderStats(reports[i].root);
      sumStats := SummaryStats(
        sumStats.passed + stat.passed,
        sumStats.failed + stat.failed,
        sumStats.inconclusive + stat.inconclusive,
        sumStats.skipped + stat.skipped,
        sumStats.none + stat.none,
        sumStats.totalExecutionTime + stat.totalExecutionTime);
    }
    assert reports[..|reports|] == reports;
  }

  /** `detailTcs`: the test cases of all reports, report after report. */
  function DetailTcs(reports: seq<TestReport>): seq<TestCase>
  {
    if reports == [] then []
    else DetailTcs(reports[..|reports| - 1]) + GetTestCases(reports[|reports| - 1].root)
  }

  /** The summary counts every test case of `detailTcs` once. */
  lemma {:induction false} ReportsStatsAreDetailStats(reports: seq<TestReport>)
    ensures ReportsStats(reports) == CasesStats(DetailTcs(reports))
  {
    if reports != [] {
      var init := reports[..|reports| - 1];
      ReportsStatsAreDetailStats(init);
      CasesStatsAppend(DetailTcs(init), GetTestCases(reports[|reports| - 1].root));
    }
  }

  /** Hence the summary counts one verdict per listed test case, and none as inconclusive. */
  lemma ReportsStatsCounts(reports: seq<TestReport>)
    ensures Count(ReportsStats(reports)) == |DetailTcs(reports)|
    ensures ReportsStats(reports).inconclusive == 0
  {
    ReportsStatsAreDetailStats(reports);
    CasesStatsCounts(DetailTcs(reports));
  }

  /** A test case is listed exactly when one of the reports contains it. */
  lemma {:induction false} DetailTcsMembers(reports: seq<TestReport>, tc: TestCase)
    ensures tc in DetailTcs(reports) <==> exists i :: 0 <= i < |reports| && ContainsCase(reports[i].root, tc)
  {
    if reports != [] {
      var init := reports[..|reports| - 1];
      var last := reports[|reports| - 1];
      DetailTcsMembers(init, tc);
      GetTestCasesMembers(last.root, tc);
      if exists i :: 0 <= i < |reports| && ContainsCase(reports[i].root, tc) {
        var i :| 0 <= i < |reports| && ContainsCase(reports[i].root, tc);
        if i < |init| {
          assert init[i] == reports[i];
        }
      }
      if exists i :: 0 <= i < |init| && ContainsCase(init[i].root, tc) {
        var i :| 0 <= i < |init| && ContainsCase(init[i].root, tc);
        assert reports[i] == init[i];
      }
    }
  }

  // ---------------------------------------------------------------- the pie selection

  /** The verdict regular expression of a slice of the summary ring: 0 passed, 1 failed or
      error, 2 inconclusive, 3 skipped, anything else none. */
  predicate SliceMatches(index: int, verdict: string)
  {
    if index == 0 then StartsWith(verdict, "PASSED")
    else if index == 1 then StartsWith(verdict, "FAILED") || StartsWith(verdict, "ERROR")
    else if index == 2 then StartsWith(verdict, "INCONCLUSIVE")
    else if index == 3 then StartsWith(verdict, "SKIPPED")
    else StartsWith(verdict, "NONE")
  }

  /** `detailTcs.filter(t => filterVerdict.test(t.verdict))`. */
  function SliceSelection(tcs: seq<TestCase>, index: int): seq<TestCase>
  {
    Seqs.Filter(tcs, (tc: TestCase) => SliceMatches(index, tc.verdict))
  }

  /** The selection keeps the order of `detailTcs`, and a test case is selected iff its
      verdict matches the slice. */
  lemma SliceSelectionSpec(tcs: seq<TestCase>, index: int)
    ensures Seqs.IsSubseq(SliceSelection(tcs, index), tcs)
    ensures forall tc :: tc in SliceSelection(tcs, index) <==> tc in tcs && SliceMatches(index, tc.verdict)
  {
    Seqs.FilterIsSubseq(tcs, (tc: TestCase) => SliceMatches(index, tc.verdict));
  }

  /** The first letters a verdict of each slice can start with. */
  function SliceFirstLetters(index: int): set<char>
  {
    if index == 0 then {'P'}
    else if index == 1 then {'F', 'E'}
    else if index == 2 then {'I'}
    else if index == 3 then {'S'}
    else {'N'}
  }

  lemma SliceFirstLetter(index: int, verdict: string)
    ensures SliceMatches(index, verdict) ==> |verdict| > 0 && verdict[0] in SliceFirstLetters(index)
  {
  }

  /** No verdict matches two of the five slices: their patterns start with different letters. */
  lemma SlicesDisjoint(i: int, j: int, verdict: string)
    requires 0 <= i < j <= 4
    ensures !(SliceMatches(i, verdict) && SliceMatches(j, verdict))
  {
    SliceFirstLetter(i, verdict);
    SliceFirstLetter(j, verdict);
  }

  /** The six verdicts an ATX report uses. */
  predicate IsKnownVerdict(verdict: string)
  {
    verdict == "PASSED" || verdict == "FAILED" || verdict == "ERROR" || verdict == "INCONCLUSIVE" || verdict == "SKIPPED" || verdict == "NONE"
  }

  /** Clicking a slice of the summary ring shows as many test cases as the slice counts, except
      that the statistics count inconclusive test cases as skipped: the inconclusive and
      skipped selections together make up the skipped count. */
  lemma {:induction false} SliceSelectionsMatchStats(tcs: seq<TestCase>)
    requires forall i :: 0 <= i < |tcs| ==> IsKnownVerdict(tcs[i].verdict)
    ensures |SliceSelection(tcs, 0)| == CasesStats(tcs).passed
    ensures |SliceSelection(tcs, 1)| == CasesStats(tcs).failed
    ensures |SliceSelection(tcs, 2)| + |SliceSelection(tcs, 3)| == CasesStats(tcs).skipped
    ensures |SliceSelection(tcs, 4)| == CasesStats(tcs).none
  {
    if tcs != [] {
      var init := tcs[..|tcs| - 1];
      SliceSelectionsMatchStats(init);
      LeafSlices(tcs[|tcs| - 1]);
      SliceSelectionSnoc(tcs, 0);
      SliceSelectionSnoc(tcs, 1);
      SliceSelectionSnoc(tcs, 2);
      SliceSelectionSnoc(tcs, 3);
      SliceSelectionSnoc(tcs, 4);
    }
  }

  /** The slices one test case with a known verdict is shown in, against what it adds to the
      statistics. */
  lemma LeafSlices(tc: TestCase)
    requires IsKnownVerdict(tc.verdict)
    ensures (if SliceMatches(0, tc.verdict) then 1 else 0) == LeafStats(tc).passed
    ensures (if SliceMatches(1, tc.verdict) then 1 else 0) == LeafStats(tc).failed
    ensures (if SliceMatches(2, tc.verdict) then 1 else 0) + (if SliceMatches(3, tc.verdict) then 1 else 0) == LeafStats(tc).skipped
    ensures (if SliceMatches(4, tc.verdict) then 1 else 0) == LeafStats(tc).none
  {
    SliceFirstLetter(0, tc.verdict);
    SliceFirstLetter(1, tc.verdict);
    SliceFirstLetter(2, tc.verdict);
    SliceFirstLetter(3, tc.verdict);
    SliceFirstLetter(4, tc.verdict);
  }

  lemma SliceSelectionSnoc(tcs: seq<TestCase>, index: int)
    requires tcs != []
    ensures SliceSelection(tcs, index)
         == SliceSelection(tcs[..|tcs| - 1], index) + (if SliceMatches(index, tcs[|tcs| - 1].verdict) then [tcs[|tcs| - 1]] else [])
  {
  }
}
