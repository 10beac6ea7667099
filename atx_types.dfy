/** The data model of a parsed ATX test report (the interfaces of src/atxReportParser.ts). */
module AtxTypes {
  import opened Wrappers

  datatype Argument = Argument(
    desc: Option<string>,
    argType: Option<string>,
    direction: Option<string>,
    value: string)

  /** A test step, or a folder of further steps. */
  datatype TestStepFolder = TestStepFolder(
    shortName: string,
    longName: Option<string>,
    desc: Option<string>,
    verdict: Option<string>,
    expectedResult: Option<string>,
    steps: seq<TestStepFolder>)

  /** A leaf of the results tree. Dates are opaque timestamps. */
  datatype TestCase = TestCase(
    shortName: string,
    longName: Option<string>,
    desc: Option<string>,
    date: Option<int>,
    executionTimeInSec: Option<real>,
    verdict: string,
    originRef: Option<string>,
    steps: seq<TestStepFolder>,
    testArguments: seq<Argument>,
    testConstants: map<string, string>)

  /** An entry of a folder's `testCases` array: a test case or a sub-folder. */
  datatype TestCaseNode = Case(tc: TestCase) | Folder(folder: TestCaseFolder)

  datatype TestCaseFolder = TestCaseFolder(
    shortName: string,
    longName: Option<string>,
    testCases: seq<TestCaseNode>)

  datatype PlannedTestCase = PlannedTestCase(shortName: string, repetition: int, testCaseRef: string)

  /** An entry of a planned folder: a planned test case (it has a `repetition`) or a sub-folder. */
  datatype PlannedNode = PlannedCase(ptc: PlannedTestCase) | PlannedFolder(pfolder: PlannedTestCaseFolder)

  datatype PlannedTestCaseFolder = PlannedTestCaseFolder(shortName: string, plannedTestCases: seq<PlannedNode>)

  datatype TestReport = TestReport(
    shortName: string,
    longName: Option<string>,
    date: Option<int>,
    root: TestCaseFolder,
    plan: PlannedTestCaseFolder)

  /** Verdict counters and the accumulated execution time. */
  datatype SummaryStats = SummaryStats(
    passed: nat,
    failed: nat,
    inconclusive: nat,
    skipped: nat,
    none: nat,
    totalExecutionTime: real)

  const ZeroStats := SummaryStats(0, 0, 0, 0, 0, 0.0)

  /** The counter a verdict (or a vote) is added to. */
  datatype Bucket = PassedBucket | FailedBucket | InconclusiveBucket | SkippedBucket | NoneBucket

  function Plus(a: SummaryStats, b: SummaryStats): SummaryStats
  {
    SummaryStats(a.passed + b.passed, a.failed + b.failed, a.inconclusive + b.inconclusive,
                 a.skipped + b.skipped, a.none + b.none, a.totalExecutionTime + b.totalExecutionTime)
  }

  /** Number of verdicts counted. */
  function Count(s: SummaryStats): nat
  {
    s.passed + s.failed + s.inconclusive + s.skipped + s.none
  }

  /** One verdict in bucket `b`, taking `time` seconds. */
  function Tick(b: Bucket, time: real): (r: SummaryStats)
    ensures Count(r) == 1 && r.totalExecutionTime == time
  {
    match b
    case PassedBucket => ZeroStats.(passed := 1, totalExecutionTime := time)
    case FailedBucket => ZeroStats.(failed := 1, totalExecutionTime := time)
    case InconclusiveBucket => ZeroStats.(inconclusive := 1, totalExecutionTime := time)
    case SkippedBucket => ZeroStats.(skipped := 1, totalExecutionTime := time)
    case NoneBucket => ZeroStats.(none := 1, totalExecutionTime := time)
  }

  /** `stats[bucket]++`. */
  function Bump(s: SummaryStats, b: Bucket): (r: SummaryStats)
    ensures r == Plus(s, Tick(b, 0.0))
  {
    match b
    case PassedBucket => s.(passed := s.passed + 1)
    case FailedBucket => s.(failed := s.failed + 1)
    case InconclusiveBucket => s.(inconclusive := s.inconclusive + 1)
    case SkippedBucket => s.(skipped := s.skipped + 1)
    case NoneBucket => s.(none := s.none + 1)
  }

  /** `tc.executionTimeInSec || 0`. */
  function ExecSeconds(tc: TestCase): real
  {
    match tc.executionTimeInSec
    case Some(t) => t
    case None => 0.0
  }
}
