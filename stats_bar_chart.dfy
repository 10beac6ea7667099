/** The bar chart of verdicts per test script (src/AtxStatsBarChart.tsx): the test cases of all
    reports are grouped by their `TT_TESTSCRIPT_ID` test constant, and each script then casts one
    vote for "all iterations the same" and one for "at least one iteration". */
module AtxStatsBarChart {
  import opened Wrappers
  import opened AtxTypes
  import opened AtxStats
  import opened AtxExecOverview
  import Seqs

  const ScriptIdKey := "TT_TESTSCRIPT_ID"

  /** The script a test case belongs to, when it has the constant. */
  function ScriptId(tc: TestCase): (r: Option<string>)
    ensures r.Some? <==> ScriptIdKey in tc.testConstants
  {
    if ScriptIdKey in tc.testConstants then Some(tc.testConstants[ScriptIdKey]) else None
  }

  /** The counter `filterFn` adds a verdict to; unlike `getFolderStats` it has one for
      INCONCLUSIVE. */
  function ScriptBucket(verdict: string): (r: Bucket)
    ensures r == PassedBucket <==> verdict == "PASSED"
    ensures r == FailedBucket <==> verdict == "FAILED" || verdict == "ERROR"
    ensures r == InconclusiveBucket <==> verdict == "INCONCLUSIVE"
    ensures r == NoneBucket <==> verdict == "NONE"
  {
    match verdict
    case "PASSED" => PassedBucket
    case "ERROR" => FailedBucket
    case "FAILED" => FailedBucket
    case "INCONCLUSIVE" => InconclusiveBucket
    case "NONE" => NoneBucket
    case _ => SkippedBucket
  }

  /** What one test case adds to the statistics of its script. */
  function ScriptLeafStats(tc: TestCase): SummaryStats
  {
    Tick(ScriptBucket(tc.verdict), ExecSeconds(tc))
  }

  function Lookup(m: map<string, SummaryStats>, id: string): SummaryStats
  {
    if id in m then m[id] else ZeroStats
  }

  /** The key order of `testScriptIds` after `filterFn(tc)`: a new script id is appended. */
  function OrderStep(order: seq<string>, m: map<string, SummaryStats>, tc: TestCase): seq<string>
  {
    match ScriptId(tc)
    case Some(id) => if id in m then order else order + [id]
    case None => order
  }

  /** The contents of `testScriptIds` after `filterFn(tc)`. */
  function StatsStep(m: map<string, SummaryStats>, tc: TestCase): map<string, SummaryStats>
  {
    match ScriptId(tc)
    case Some(id) => m[id := Plus(Lookup(m, id), ScriptLeafStats(tc))]
    case None => m
  }

  /** The script ids in order of first appearance among `tcs`. */
  function IdOrder(tcs: seq<TestCase>): seq<string>
  {
    if tcs == [] then [] else OrderStep(IdOrder(tcs[..|tcs| - 1]), IdStats(tcs[..|tcs| - 1]), tcs[|tcs| - 1])
  }

  /** The statistics per script id accumulated over `tcs`. */
  function IdStats(tcs: seq<TestCase>): map<string, SummaryStats>
  {
    if tcs == [] then map[] else StatsStep(IdStats(tcs[..|tcs| - 1]), tcs[|tcs| - 1])
  }

  // ---------------------------------------------------------------- the map of scripts

  /** `testScriptIds` and the `filterFn` that fills it: `order` is the map's insertion order. */
  class ScriptIdStats {
    var order: seq<string>
    var stats: map<string, SummaryStats>

    ghost predicate Valid()
      reads this
    {
      forall id :: id in order <==> id in stats
    }

    constructor ()
      ensures order == [] && stats == map[]
      ensures Valid()
    {
      order := [];
      stats := map[];
    }

    /** `filterFn(tc)`: a test case with a script id counts in the statistics of that id; the
        function always answers `true`. */
    method FilterFn(tc: TestCase) returns (keep: bool)
      requires Valid()
      modifies this
      ensures keep
      ensures order == OrderStep(old(order), old(stats), tc)
      ensures stats == StatsStep(old(stats), tc)
      ensures Valid()
    {
      if ScriptIdKey in tc.testConstants {
        var id := tc.testConstants[ScriptIdKey];
        if id !in stats {
          stats := stats[id := ZeroStats];
          order := order + [id];
        }
        var s := stats[id];
        BumpTime(s, ScriptBucket(tc.verdict), ExecSeconds(tc));
        s := s.(totalExecutionTime := s.totalExecutionTime + ExecSeconds(tc));
        s := Bump(s, ScriptBucket(tc.verdict));
        stats := stats[id := s];
        return true;
      }
      return true;
    }

    /** The `testScriptIds.forEach` that casts the two votes of every script. */
    method Tally() returns (allItStats: SummaryStats, gtEq1Stats: SummaryStats)
      requires Valid()
      ensures allItStats == VoteStats(order, stats, AllItVote)
      ensures gtEq1Stats == VoteStats(order, stats, GtEq1Vote)
    {
      allItStats := ZeroStats;
      gtEq1Stats := ZeroStats;
      for i := 0 to |order|
        invariant allItStats == VoteStats(order[..i], stats, AllItVote)
        invariant gtEq1Stats == VoteStats(order[..i], stats, GtEq1Vote)
      {
        assert order[..i + 1][..i] == order[..i];
        assert order[i] in order;
        var stat := stats[order[i]];
        allItStats := CastVote(allItStats, AllItVote(stat), stat.totalExecutionTime);
        gtEq1Stats := CastVote(gtEq1Stats, GtEq1Vote(stat), stat.totalExecutionTime);
      }
      assert order[..|order|] == order;
    }
  }

  // ---------------------------------------------------------------- the votes

  /** `aggregate[vote] += 1; aggregate.totalExecutionTime += time`. */
  method CastVote(aggregate: SummaryStats, vote: Bucket, time: real) returns (r: SummaryStats)
    ensures r == Plus(aggregate, Tick(vote, time))
  {
    r := Bump(aggregate, vote);
    r := r.(totalExecutionTime := r.totalExecutionTime + time);
  }

  /** The vote for "all iterations": all passed, else all failed, else all none, else all
      skipped, else inconclusive. */
  function AllItVote(stat: SummaryStats): (r: Bucket)
    ensures r == PassedBucket ==> stat.passed == Count(stat)
    ensures r == FailedBucket ==> stat.failed == Count(stat)
    ensures r == NoneBucket ==> stat.none == Count(stat)
    ensures r == SkippedBucket ==> stat.skipped == Count(stat)
  {
    var nrIterations := Count(stat);
    if stat.passed == nrIterations then PassedBucket
    else if stat.failed == nrIterations then FailedBucket
    else if stat.none == nrIterations then NoneBucket
    else if stat.skipped == nrIterations then SkippedBucket
    else InconclusiveBucket
  }

  /** The vote for "at least one iteration": any passed, else any failed, else any
      inconclusive, else any none, else skipped. */
  function GtEq1Vote(stat: SummaryStats): (r: Bucket)
    ensures r == PassedBucket <==> stat.passed > 0
    ensures r == FailedBucket ==> stat.failed > 0
    ensures r == InconclusiveBucket ==> stat.inconclusive > 0
    ensures r == NoneBucket ==> stat.none > 0
  {
    if stat.passed > 0 then PassedBucket
    else if stat.failed > 0 then FailedBucket
    else if stat.inconclusive > 0 then InconclusiveBucket
    else if stat.none > 0 then NoneBucket
    else SkippedBucket
  }

  /** One vote per script of `order`, each carrying the script's execution time. */
  function VoteStats(order: seq<string>, m: map<string, SummaryStats>, vote: SummaryStats -> Bucket): SummaryStats
  {
    if order == [] then ZeroStats
    else
      var id := order[|order| - 1];
      Plus(VoteStats(order[..|order| - 1], m, vote), Tick(vote(Lookup(m, id)), Lookup(m, id).totalExecutionTime))
  }

  /** The execution time of all scripts of `order`. */
  function TotalTime(order: seq<string>, m: map<string, SummaryStats>): real
  {
    if order == [] then 0.0 else TotalTime(order[..|order| - 1], m) + Lookup(m, order[|order| - 1]).totalExecutionTime
  }

  /** Every script casts exactly one vote, and the aggregate's time is the sum of the scripts'
      times, whatever the voting rule. */
  lemma {:induction false} VoteStatsCountsScripts(order: seq<string>, m: map<string, SummaryStats>, vote: SummaryStats -> Bucket)
    ensures Count(VoteStats(order, m, vote)) == |order|
    ensures VoteStats(order, m, vote).totalExecutionTime == TotalTime(order, m)
  {
    if order != [] {
      VoteStatsCountsScripts(order[..|order| - 1], m, vote);
    }
  }

  /** A script whose iterations all passed also has one that passed. */
  lemma AllPassedImpliesGtEq1Passed(stat: SummaryStats)
    requires Count(stat) > 0 && AllItVote(stat) == PassedBucket
    ensures GtEq1Vote(stat) == PassedBucket
  {
  }

  /** The votes agree on failing: if all iterations failed, none passed and one failed. */
  lemma AllFailedImpliesGtEq1Failed(stat: SummaryStats)
    requires Count(stat) > 0 && AllItVote(stat) == FailedBucket
    ensures GtEq1Vote(stat) == FailedBucket
  {
  }

  /** A script voted skipped for "at least one iteration" had only skipped iterations. */
  lemma GtEq1SkippedImpliesAllSkipped(stat: SummaryStats)
    requires Count(stat) > 0 && GtEq1Vote(stat) == SkippedBucket
    ensures AllItVote(stat) == SkippedBucket
  {
  }

  // ---------------------------------------------------------------- the accumulated scripts

  predicate HasScriptId(id: string, tc: TestCase)
  {
    ScriptId(tc) == Some(id)
  }

  /** The statistics of a list of test cases by the script counters. */
  function ScriptCasesStats(tcs: seq<TestCase>): SummaryStats
  {
    if tcs == [] then ZeroStats else Plus(ScriptCasesStats(tcs[..|tcs| - 1]), ScriptLeafStats(tcs[|tcs| - 1]))
  }

  /** The key order lists exactly the keys of the map, each once. */
  lemma {:induction false} IdOrderIsKeys(tcs: seq<TestCase>)
    ensures forall id :: id in IdOrder(tcs) <==> id in IdStats(tcs)
    ensures forall i, j :: 0 <= i < j < |IdOrder(tcs)| ==> IdOrder(tcs)[i] != IdOrder(tcs)[j]
  {
    if tcs != [] {
      IdOrderIsKeys(tcs[..|tcs| - 1]);
    }
  }

  /** The map holds exactly the ids that occur among the test cases. */
  lemma {:induction false} IdStatsKeysOccur(tcs: seq<TestCase>)
    ensures forall id :: id in IdStats(tcs) <==> exists k :: 0 <= k < |tcs| && HasScriptId(id, tcs[k])
  {
    if tcs != [] {
      var init := tcs[..|tcs| - 1];
      IdStatsKeysOccur(init);
      forall id | id in IdStats(tcs)
        ensures exists k :: 0 <= k < |tcs| && HasScriptId(id, tcs[k])
      {
        if id in IdStats(init) {
          var k :| 0 <= k < |init| && HasScriptId(id, init[k]);
          assert tcs[k] == init[k];
        } else {
          assert HasScriptId(id, tcs[|tcs| - 1]);
        }
      }
      forall id | exists k :: 0 <= k < |tcs| && HasScriptId(id, tcs[k])
        ensures id in IdStats(tcs)
      {
        var k :| 0 <= k < |tcs| && HasScriptId(id, tcs[k]);
        if k < |init| {
          assert init[k] == tcs[k];
        }
      }
    }
  }

  /** An id's statistics are those of the test cases that carry it. */
  lemma {:induction false} IdStatsPerId(tcs: seq<TestCase>, id: string)
    ensures Lookup(IdStats(tcs), id) == ScriptCasesStats(Seqs.Filter(tcs, (tc: TestCase) => HasScriptId(id, tc)))
  {
    if tcs != [] {
      var init := tcs[..|tcs| - 1];
      var last := tcs[|tcs| - 1];
      IdStatsPerId(init, id);
      LookupStep(IdStats(init), last, id);
      var f := Seqs.Filter(init, (tc: TestCase) => HasScriptId(id, tc));
      assert Seqs.Filter(tcs, (tc: TestCase) => HasScriptId(id, tc)) == f + (if HasScriptId(id, last) then [last] else []);
      if HasScriptId(id, last) {
        assert (f + [last])[..|f|] == f;
      } else {
        assert f + [] == f;
      }
    }
  }

  lemma LookupStep(m: map<string, SummaryStats>, tc: TestCase, id: string)
    ensures Lookup(StatsStep(m, tc), id) == if HasScriptId(id, tc) then Plus(Lookup(m, id), ScriptLeafStats(tc)) else Lookup(m, id)
  {
  }

  /** `testScriptIds.size`: the number of keys is the length of the key order. */
  lemma IdOrderIsKeyCount(tcs: seq<TestCase>)
    ensures |IdStats(tcs).Keys| == |IdOrder(tcs)|
  {
    IdOrderIsKeys(tcs);
    DistinctCard(IdOrder(tcs));
    assert IdStats(tcs).Keys == set id | id in IdOrder(tcs);
  }

  lemma {:induction false} DistinctCard(s: seq<string>)
    requires forall i, j :: 0 <= i < j < |s| ==> s[i] != s[j]
    ensures |set x | x in s| == |s|
  {
    if s != [] {
      var init := s[..|s| - 1];
      DistinctCard(init);
      assert (set x | x in s) == (set x | x in init) + {s[|s| - 1]};
      assert s[|s| - 1] !in init;
    }
  }

  /** Each script counts one verdict per test case that carries its id. */
  lemma {:induction false} ScriptCasesStatsCount(tcs: seq<TestCase>)
    ensures Count(ScriptCasesStats(tcs)) == |tcs|
  {
    if tcs != [] {
      ScriptCasesStatsCount(tcs[..|tcs| - 1]);
    }
  }

  // ---------------------------------------------------------------- the effect

  /** What the chart shows, for the test cases of all reports in `getFolderStats` order. */
  function ChartStats(reports: seq<TestReport>): (nat, SummaryStats, SummaryStats)
  {
    var tcs := DetailTcs(reports);
    (|IdOrder(tcs)|, VoteStats(IdOrder(tcs), IdStats(tcs), AllItVote), VoteStats(IdOrder(tcs), IdStats(tcs), GtEq1Vote))
  }

  /** The effect: `filterFn` on every test case of every report, then the votes. */
  method BarChartStats(reports: seq<TestReport>) returns (nrTestScripts: nat, allItStats: SummaryStats, gtEq1Stats: SummaryStats)
    ensures (nrTestScripts, allItStats, gtEq1Stats) == ChartStats(reports)
  {
    var testScriptIds := new ScriptIdStats();
    for i := 0 to |reports|
      invariant testScriptIds.Valid()
      invariant testScriptIds.order == IdOrder(DetailTcs(reports[..i]))
      invariant testScriptIds.stats == IdStats(DetailTcs(reports[..i]))
    {
      assert reports[..i + 1][..i] == reports[..i];
      VisitFolder(testScriptIds, reports[i].root, DetailTcs(reports[..i]));
    }
    assert reports[..|reports|] == reports;
    nrTestScripts := |testScriptIds.order|;
    allItStats, gtEq1Stats := testScriptIds.Tally();
  }

  /** `getFolderStats(root, filterFn)`, as far as `filterFn` sees it: every test case below
      `root`, in `getTestCases` order. */
  method VisitFolder(testScriptIds: ScriptIdStats, root: TestCaseFolder, ghost before: seq<TestCase>)
    requires testScriptIds.Valid()
    requires testScriptIds.order == IdOrder(before) && testScriptIds.stats == IdStats(before)
    modifies testScriptIds
    ensures testScriptIds.Valid()
    ensures testScriptIds.order == IdOrder(before + GetTestCases(root))
    ensures testScriptIds.stats == IdStats(before + GetTestCases(root))
  {
    var tcs := GetTestCases(root);
    assert before + tcs[..0] == before;
    for j := 0 to |tcs|
      invariant testScriptIds.Valid()
      invariant testScriptIds.order == IdOrder(before + tcs[..j])
      invariant testScriptIds.stats == IdStats(before + tcs[..j])
    {
      IdStep(before + tcs[..j], tcs[j]);
      assert before + tcs[..j + 1] == (before + tcs[..j]) + [tcs[j]];
      var _ := testScriptIds.FilterFn(tcs[j]);
    }
    assert tcs[..|tcs|] == tcs;
  }

  lemma IdStep(xs: seq<TestCase>, tc: TestCase)
    ensures IdOrder(xs + [tc]) == OrderStep(IdOrder(xs), IdStats(xs), tc)
    ensures IdStats(xs + [tc]) == StatsStep(IdStats(xs), tc)
  {
    assert (xs + [tc])[..|xs|] == xs;
  }

  /** Both aggregates hold one vote per script and the scripts' summed execution time. */
  lemma ChartStatsCounts(reports: seq<TestReport>)
    ensures Count(ChartStats(reports).1) == ChartStats(reports).0
    ensures Count(ChartStats(reports).2) == ChartStats(reports).0
    ensures ChartStats(reports).1.totalExecutionTime == ChartStats(reports).2.totalExecutionTime
  {
    var tcs := DetailTcs(reports);
    VoteStatsCountsScripts(IdOrder(tcs), IdStats(tcs), AllItVote);
    VoteStatsCountsScripts(IdOrder(tcs), IdStats(tcs), GtEq1Vote);
  }
}
