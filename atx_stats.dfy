/** Walks over a parsed results tree: the test cases in depth-first order, the verdict
    statistics of a folder, and the test name of a report (src/atxReportParser.ts). */
module AtxStats {
  import opened Wrappers
  import opened Text
  import opened AtxTypes
  import Seqs

  /** `getTestCases`: the leaves of a results tree in depth-first document order. */
  function GetTestCases(folder: TestCaseFolder): seq<TestCase>
  {
    NodesTestCases(folder.testCases)
  }

  function NodesTestCases(nodes: seq<TestCaseNode>): seq<TestCase>
  {
    if nodes == [] then []
    else NodesTestCases(nodes[..|nodes| - 1]) + NodeTestCases(nodes[|nodes| - 1])
  }

  function NodeTestCases(node: TestCaseNode): seq<TestCase>
  {
    match node
    case Case(tc) => [tc]
    case Folder(f) => GetTestCases(f)
  }

  /** `tc` is a leaf somewhere below `folder`. */
  predicate ContainsCase(folder: TestCaseFolder, tc: TestCase)
  {
    exists i :: 0 <= i < |folder.testCases| && NodeContainsCase(folder.testCases[i], tc)
  }

  predicate NodeContainsCase(node: TestCaseNode, tc: TestCase)
  {
    match node
    case Case(c) => c == tc
    case Folder(f) => ContainsCase(f, tc)
  }

  /** The counter `getFolderStats` adds a verdict to; it has no INCONCLUSIVE counter. */
  function FolderBucket(verdict: string): (b: Bucket)
    ensures b != InconclusiveBucket
    ensures verdict == "INCONCLUSIVE" ==> b == SkippedBucket
  {
    match verdict
    case "PASSED" => PassedBucket
    case "ERROR" => FailedBucket
    case "FAILED" => FailedBucket
    case "NONE" => NoneBucket
    case _ => SkippedBucket
  }

  /** What one test case adds to the statistics of its folder. */
  function LeafStats(tc: TestCase): SummaryStats
  {
    Tick(FolderBucket(tc.verdict), ExecSeconds(tc))
  }

  /** The statistics of a list of test cases: one verdict each, times summed. */
  function CasesStats(tcs: seq<TestCase>): SummaryStats
  {
    if tcs == [] then ZeroStats
    else Plus(CasesStats(tcs[..|tcs| - 1]), LeafStats(tcs[|tcs| - 1]))
  }

  /** `getFolderStats(folder)`: counts every test case below `folder` once. */
  method GetFolderStats(folder: TestCaseFolder) returns (stats: SummaryStats)
    ensures stats == CasesStats(GetTestCases(folder))
  {
    stats := ZeroStats;
    var nodes := folder.testCases;
    for i := 0 to |nodes|
      invariant stats == CasesStats(NodesTestCases(nodes[..i]))
    {
      NodesTestCasesStep(nodes, i);
      ghost var prefix := NodesTestCases(nodes[..i]);
      match nodes[i]
      case Case(tc) =>
        ghost var s := stats;
        stats := stats.(totalExecutionTime := stats.totalExecutionTime + ExecSeconds(tc));
        stats := Bump(stats, FolderBucket(tc.verdict));
        BumpTime(s, FolderBucket(tc.verdict), ExecSeconds(tc));
        CasesStatsPush(prefix, tc);
      case Folder(f) =>
        var fStats := GetFolderStats(f);
        ghost var s := stats;
        stats := stats.(passed := stats.passed + fStats.passed,
                        failed := stats.failed + fStats.failed,
                        skipped := stats.skipped + fStats.skipped,
                        none := stats.none + fStats.none,
                        totalExecutionTime := stats.totalExecutionTime + fStats.totalExecutionTime);
        CasesStatsCounts(GetTestCases(f));
        FolderStep(s, fStats, stats);
        CasesStatsAppend(prefix, GetTestCases(f));
    }
    assert nodes[..|nodes|] == nodes;
  }

  lemma NodesTestCasesStep(nodes: seq<TestCaseNode>, i: nat)
    requires i < |nodes|
    ensures NodesTestCases(nodes[..i + 1]) == NodesTestCases(nodes[..i]) + NodeTestCases(nodes[i])
  {
    assert nodes[..i + 1][..i] == nodes[..i];
  }

  lemma CasesStatsPush(prefix: seq<TestCase>, tc: TestCase)
    ensures CasesStats(prefix + [tc]) == Plus(CasesStats(prefix), LeafStats(tc))
  {
    assert (prefix + [tc])[..|prefix|] == prefix;
    assert (prefix + [tc])[|prefix|] == tc;
  }

  /** Adding a leaf's time and then bumping its counter is adding its one-verdict statistics. */
  lemma BumpTime(s: SummaryStats, b: Bucket, t: real)
    ensures Bump(s.(totalExecutionTime := s.totalExecutionTime + t), b) == Plus(s, Tick(b, t))
  {
  }

  /** The four counters and the time `getFolderStats` adds up are all of `Plus` when the
      added statistics have no inconclusive verdict. */
  lemma FolderStep(s: SummaryStats, fs: SummaryStats, s': SummaryStats)
    requires fs.inconclusive == 0
    requires s' == s.(passed := s.passed + fs.passed, failed := s.failed + fs.failed, skipped := s.skipped + fs.skipped,
                      none := s.none + fs.none, totalExecutionTime := s.totalExecutionTime + fs.totalExecutionTime)
    ensures s' == Plus(s, fs)
  {
  }

  lemma {:induction false} CasesStatsAppend(a: seq<TestCase>, b: seq<TestCase>)
    ensures CasesStats(a + b) == Plus(CasesStats(a), CasesStats(b))
  {
    if b == [] {
      assert a + b == a;
    } else {
      var bi := b[..|b| - 1];
      var x := b[|b| - 1];
      CasesStatsSnoc(a, b);
      CasesStatsAppend(a, bi);
      PlusAssoc(CasesStats(a), CasesStats(bi), LeafStats(x));
    }
  }

  lemma CasesStatsSnoc(a: seq<TestCase>, b: seq<TestCase>)
    requires b != []
    ensures CasesStats(a + b) == Plus(CasesStats(a + b[..|b| - 1]), LeafStats(b[|b| - 1]))
  {
    assert (a + b)[..|a + b| - 1] == a + b[..|b| - 1];
    assert (a + b)[|a + b| - 1] == b[|b| - 1];
  }

  lemma PlusAssoc(x: SummaryStats, y: SummaryStats, z: SummaryStats)
    ensures Plus(Plus(x, y), z) == Plus(x, Plus(y, z))
  {
  }

  /** Every test case is counted exactly once, and never as inconclusive. */
  lemma {:induction false} CasesStatsCounts(tcs: seq<TestCase>)
    ensures Count(CasesStats(tcs)) == |tcs|
    ensures CasesStats(tcs).inconclusive == 0
  {
    if tcs != [] {
      CasesStatsCounts(tcs[..|tcs| - 1]);
    }
  }

  /** The statistics of a folder count exactly the test cases the walk yields. */
  lemma FolderStatsCountTestCases(folder: TestCaseFolder)
    ensures Count(CasesStats(GetTestCases(folder))) == |GetTestCases(folder)|
    ensures CasesStats(GetTestCases(folder)).inconclusive == 0
  {
    CasesStatsCounts(GetTestCases(folder));
  }

  /** What one entry of a folder contributes: a leaf's own verdict, or a sub-folder's statistics. */
  function NodeStats(node: TestCaseNode): SummaryStats
  {
    match node
    case Case(tc) => LeafStats(tc)
    case Folder(f) => CasesStats(GetTestCases(f))
  }

  function SumNodeStats(nodes: seq<TestCaseNode>): SummaryStats
  {
    if nodes == [] then ZeroStats
    else Plus(SumNodeStats(nodes[..|nodes| - 1]), NodeStats(nodes[|nodes| - 1]))
  }

  /** A folder's statistics are the sum over its entries. */
  lemma {:induction false} FolderStatsAdditive(nodes: seq<TestCaseNode>)
    ensures CasesStats(NodesTestCases(nodes)) == SumNodeStats(nodes)
  {
    if nodes != [] {
      var init := nodes[..|nodes| - 1];
      var last := nodes[|nodes| - 1];
      FolderStatsAdditive(init);
      CasesStatsAppend(NodesTestCases(init), NodeTestCases(last));
      NodeStatsOfCases(last);
    }
  }

  lemma NodeStatsOfCases(node: TestCaseNode)
    ensures CasesStats(NodeTestCases(node)) == NodeStats(node)
  {
    match node
    case Case(tc) =>
      CasesStatsSnoc([], [tc]);
    case Folder(f) =>
  }

  /** The walk yields exactly the test cases of the tree: every leaf, and nothing else. */
  lemma {:induction false} GetTestCasesMembers(folder: TestCaseFolder, tc: TestCase)
    ensures tc in GetTestCases(folder) <==> ContainsCase(folder, tc)
  {
    NodesTestCasesMembers(folder.testCases, tc);
  }

  lemma {:induction false} NodesTestCasesMembers(nodes: seq<TestCaseNode>, tc: TestCase)
    ensures tc in NodesTestCases(nodes) <==> exists i :: 0 <= i < |nodes| && NodeContainsCase(nodes[i], tc)
  {
    if nodes != [] {
      var init := nodes[..|nodes| - 1];
      NodesTestCasesMembers(init, tc);
      NodeTestCasesMembers(nodes[|nodes| - 1], tc);
      if exists i :: 0 <= i < |nodes| && NodeContainsCase(nodes[i], tc) {
        var i :| 0 <= i < |nodes| && NodeContainsCase(nodes[i], tc);
        if i < |nodes| - 1 {
          assert NodeContainsCase(init[i], tc);
        }
      }
      if tc in NodesTestCases(init) {
        var i :| 0 <= i < |init| && NodeContainsCase(init[i], tc);
        assert NodeContainsCase(nodes[i], tc);
      }
    }
  }

  lemma {:induction false} NodeTestCasesMembers(node: TestCaseNode, tc: TestCase)
    ensures tc in NodeTestCases(node) <==> NodeContainsCase(node, tc)
  {
    match node
    case Case(c) =>
    case Folder(f) => GetTestCasesMembers(f, tc);
  }

  /** The names `getReportTestName` joins: those of the top-level planned folders, in order. */
  function PlanFolderNames(nodes: seq<PlannedNode>): (r: seq<string>)
    ensures |r| <= |nodes|
    ensures (forall i :: 0 <= i < |nodes| ==> nodes[i].PlannedFolder?) ==>
              r == seq(|nodes|, i requires 0 <= i < |nodes| => nodes[i].pfolder.shortName)
  {
    if nodes == [] then []
    else
      var last := nodes[|nodes| - 1];
      PlanFolderNames(nodes[..|nodes| - 1]) + (if last.PlannedFolder? then [last.pfolder.shortName] else [])
  }

  predicate IsPlanFolder(node: PlannedNode)
  {
    node.PlannedFolder?
  }

  /** The joined names are those of the folder entries of the plan, one each, in plan order;
      planned test cases are passed over. */
  lemma {:induction false} PlanFolderNamesAreFolders(nodes: seq<PlannedNode>)
    ensures var fs := Seqs.Filter(nodes, IsPlanFolder);
            |PlanFolderNames(nodes)| == |fs| && forall i :: 0 <= i < |fs| ==> PlanFolderNames(nodes)[i] == fs[i].pfolder.shortName
  {
    if nodes != [] {
      var init := nodes[..|nodes| - 1];
      PlanFolderNamesAreFolders(init);
      assert Seqs.Filter(nodes, IsPlanFolder)
          == Seqs.Filter(init, IsPlanFolder) + (if IsPlanFolder(nodes[|nodes| - 1]) then [nodes[|nodes| - 1]] else []);
    }
  }

  function ReportTestName(report: TestReport): string
  {
    Join(",", PlanFolderNames(report.plan.plannedTestCases))
  }

  /** `getReportTestName`: the comma-separated names of the top-level planned folders. */
  method GetReportTestName(report: TestReport) returns (name: string)
    ensures name == Join(",", PlanFolderNames(report.plan.plannedTestCases))
  {
    var names: seq<string> := [];
    var nodes := report.plan.plannedTestCases;
    for i := 0 to |nodes|
      invariant names == PlanFolderNames(nodes[..i])
    {
      assert nodes[..i + 1][..i] == nodes[..i];
      if !nodes[i].PlannedCase? {
        names := names + [nodes[i].pfolder.shortName];
      }
    }
    assert nodes[..|nodes|] == nodes;
    name := Join(",", names);
  }

  /** A plan whose every entry, at every depth, is a folder. */
  predicate FoldersOnly(folder: PlannedTestCaseFolder)
  {
    forall i :: 0 <= i < |folder.plannedTestCases| ==> PlannedNodeFoldersOnly(folder.plannedTestCases[i])
  }

  predicate PlannedNodeFoldersOnly(node: PlannedNode)
  {
    match node
    case PlannedCase(_) => false
    case PlannedFolder(f) => FoldersOnly(f)
  }

  /** The planned test cases of a plan in depth-first order. */
  function GetPlannedTestCases(folder: PlannedTestCaseFolder): seq<PlannedTestCase>
  {
    PlannedNodesCases(folder.plannedTestCases)
  }

  function PlannedNodesCases(nodes: seq<PlannedNode>): seq<PlannedTestCase>
  {
    if nodes == [] then []
    else PlannedNodesCases(nodes[..|nodes| - 1]) + PlannedNodeCases(nodes[|nodes| - 1])
  }

  function PlannedNodeCases(node: PlannedNode): seq<PlannedTestCase>
  {
    match node
    case PlannedCase(p) => [p]
    case PlannedFolder(f) => GetPlannedTestCases(f)
  }

  /** A plan made of folders only has no planned test cases. */
  lemma {:induction false} FoldersOnlyHasNoPlannedCases(folder: PlannedTestCaseFolder)
    requires FoldersOnly(folder)
    ensures GetPlannedTestCases(folder) == []
  {
    PlannedNodesNoCases(folder.plannedTestCases);
  }

  lemma {:induction false} PlannedNodesNoCases(nodes: seq<PlannedNode>)
    requires forall i :: 0 <= i < |nodes| ==> PlannedNodeFoldersOnly(nodes[i])
    ensures PlannedNodesCases(nodes) == []
  {
    if nodes != [] {
      PlannedNodesNoCases(nodes[..|nodes| - 1]);
      PlannedNodeNoCases(nodes[|nodes| - 1]);
    }
  }

  lemma {:induction false} PlannedNodeNoCases(node: PlannedNode)
    requires PlannedNodeFoldersOnly(node)
    ensures PlannedNodeCases(node) == []
  {
    match node
    case PlannedFolder(f) => FoldersOnlyHasNoPlannedCases(f);
  }
}
