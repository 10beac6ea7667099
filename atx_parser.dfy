/** `atxReportParse` and its helpers (src/atxReportParser.ts): from the decoded document to
    the list of test reports. Each looping procedure of the source is a method proved equal
    to a function that states, entry by entry, what it keeps. */
module AtxParser {
  import opened Wrappers
  import opened Json
  import opened AtxTypes

  /** A test case as `parseTestCase` builds it: only name, time and verdict are read. */
  function NewTestCase(shortName: string, executionTimeInSec: Option<real>, verdict: string): TestCase
  {
    TestCase(shortName, None, None, None, executionTimeInSec, verdict, None, [], [], map[])
  }

  function CaseNodes(tcs: seq<TestCase>): (r: seq<TestCaseNode>)
    ensures |r| == |tcs| && forall i :: 0 <= i < |tcs| ==> r[i] == Case(tcs[i])
  {
    seq(|tcs|, i requires 0 <= i < |tcs| => Case(tcs[i]))
  }

  function FolderNodes(fs: seq<TestCaseFolder>): (r: seq<TestCaseNode>)
    ensures |r| == |fs| && forall i :: 0 <= i < |fs| ==> r[i] == Folder(fs[i])
  {
    seq(|fs|, i requires 0 <= i < |fs| => Folder(fs[i]))
  }

  function PlannedFolderNodes(fs: seq<PlannedTestCaseFolder>): (r: seq<PlannedNode>)
    ensures |r| == |fs| && forall i :: 0 <= i < |fs| ==> r[i] == PlannedFolder(fs[i])
  {
    seq(|fs|, i requires 0 <= i < |fs| => PlannedFolder(fs[i]))
  }

  // ---------------------------------------------------------------- test cases

  /** What `parseTestCase` makes of one element of a TEST-CASE array: a test case when it has
      a non-empty string SHORT-NAME and a VERDICT-RESULT object whose VERDICT is a string. */
  function ParsedTestCase(v: JSONValue): (r: seq<TestCase>)
    ensures |r| <= 1
    ensures r != [] ==> r[0].shortName != "" && r[0] == NewTestCase(r[0].shortName, r[0].executionTimeInSec, r[0].verdict)
    ensures r != [] ==> v.JObject? && (r[0].executionTimeInSec.Some? <==> Has(v.entries, "EXECUTION-TIME"))
  {
    match v
    case JObject(tc) =>
      var shortName := Get(tc, "SHORT-NAME");
      var verdR := Get(tc, "VERDICT-RESULT");
      if IsNonEmptyString(shortName) && IsPlainObject(verdR) then
        var verdict := Get(verdR.value.entries, "VERDICT");
        if IsString(verdict) then
          var time := if Has(tc, "EXECUTION-TIME") then Some(NumberOf(Get(tc, "EXECUTION-TIME").value)) else None;
          [NewTestCase(shortName.value.str, time, verdict.value.str)]
        else []
      else []
    case _ => []
  }

  /** `parseTestCase` on a TEST-CASE array. */
  function ParsedTestCaseList(vs: seq<JSONValue>): seq<TestCase>
  {
    if vs == [] then [] else ParsedTestCaseList(vs[..|vs| - 1]) + ParsedTestCase(vs[|vs| - 1])
  }

  /** `parseTestCases`: every TEST-CASE-FOLDER and TEST-CASE property of every object of the
      array, in document order; any other property and any non-object element is ignored. */
  function ParsedTestCases(items: seq<JSONValue>): seq<TestCaseNode>
  {
    if items == [] then [] else ParsedTestCases(items[..|items| - 1]) + ParsedItem(items[|items| - 1])
  }

  function ParsedItem(v: JSONValue): seq<TestCaseNode>
  {
    match v
    case JObject(es) => ParsedEntries(es)
    case _ => []
  }

  function ParsedEntries(es: JSONObject): seq<TestCaseNode>
  {
    if es == [] then [] else ParsedEntries(es[..|es| - 1]) + ParsedEntry(es[|es| - 1])
  }

  function ParsedEntry(e: (string, JSONValue)): seq<TestCaseNode>
  {
    if e.0 == "TEST-CASE-FOLDER" then
      match e.1
      case JArray(vs) => FolderNodes(ParsedTestCaseFolders(vs))
      case _ => []
    else if e.0 == "TEST-CASE" then
      match e.1
      case JArray(vs) => CaseNodes(ParsedTestCaseList(vs))
      case _ => []
    else []
  }

  /** `parseTestCaseFolder` on a TEST-CASE-FOLDER array. */
  function ParsedTestCaseFolders(vs: seq<JSONValue>): seq<TestCaseFolder>
  {
    if vs == [] then [] else ParsedTestCaseFolders(vs[..|vs| - 1]) + ParsedFolder(vs[|vs| - 1])
  }

  /** A folder is kept when its TEST-CASES is an array and its SHORT-NAME a non-empty string. */
  function ParsedFolder(v: JSONValue): seq<TestCaseFolder>
  {
    match v
    case JObject(fc) => ParsedFolderContent(fc)
    case _ => []
  }

  function ParsedFolderContent(fc: JSONObject): seq<TestCaseFolder>
  {
    match FindKey(fc, "TEST-CASES")
    case Some(k) => ParsedFolderWith(fc[k], Get(fc, "SHORT-NAME"))
    case None => []
  }

  /** The folder named `shortName` whose TEST-CASES property is `testCases`. */
  function ParsedFolderWith(testCases: (string, JSONValue), shortName: Option<JSONValue>): seq<TestCaseFolder>
  {
    match testCases.1
    case JArray(tcs) =>
      if IsNonEmptyString(shortName) then [TestCaseFolder(shortName.value.str, None, ParsedTestCases(tcs))] else []
    case _ => []
  }

  lemma TestCasesStep(items: seq<JSONValue>, i: nat)
    requires i < |items|
    ensures ParsedTestCases(items[..i + 1]) == ParsedTestCases(items[..i]) + ParsedItem(items[i])
  {
    assert items[..i + 1][..i] == items[..i];
  }

  lemma EntriesStep(es: JSONObject, j: nat)
    requires j < |es|
    ensures ParsedEntries(es[..j + 1]) == ParsedEntries(es[..j]) + ParsedEntry(es[j])
  {
    assert es[..j + 1][..j] == es[..j];
  }

  method ParseTestCase(testCase: seq<JSONValue>) returns (res: seq<TestCase>)
    ensures res == ParsedTestCaseList(testCase)
  {
    res := [];
    for i := 0 to |testCase|
      invariant res == ParsedTestCaseList(testCase[..i])
    {
      assert testCase[..i + 1][..i] == testCase[..i];
      var tc := testCase[i];
      var shortName := Member(tc, "SHORT-NAME");
      if IsNonEmptyString(shortName) {
        var verdR := Member(tc, "VERDICT-RESULT");
        if IsPlainObject(verdR) {
          var verdict := Get(verdR.value.entries, "VERDICT");
          if IsString(verdict) {
            var time := if Has(tc.entries, "EXECUTION-TIME") then Some(NumberOf(Get(tc.entries, "EXECUTION-TIME").value)) else None;
            res := res + [NewTestCase(shortName.value.str, time, verdict.value.str)];
          }
        }
      }
    }
    assert testCase[..|testCase|] == testCase;
  }

  method ParseTestCases(testCases: seq<JSONValue>) returns (res: seq<TestCaseNode>)
    ensures res == ParsedTestCases(testCases)
  {
    res := [];
    for i := 0 to |testCases|
      invariant res == ParsedTestCases(testCases[..i])
    {
      TestCasesStep(testCases, i);
      ghost var before := res;
      match testCases[i]
      case JObject(tc) =>
        for j := 0 to |tc|
          invariant res == before + ParsedEntries(tc[..j])
        {
          EntriesStep(tc, j);
          var pushed := ParseTestCasesEntry(tc[j]);
          res := res + pushed;
        }
        assert tc[..|tc|] == tc;
        assert ParsedItem(testCases[i]) == ParsedEntries(tc);
      case _ =>
        assert ParsedItem(testCases[i]) == [];
    }
    assert testCases[..|testCases|] == testCases;
  }

  /** The `switch (key)` of `parseTestCases` on one property of a TEST-CASES element. */
  method ParseTestCasesEntry(entry: (string, JSONValue)) returns (pushed: seq<TestCaseNode>)
    ensures pushed == ParsedEntry(entry)
  {
    var (key, value) := entry;
    pushed := [];
    if key == "TEST-CASE-FOLDER" {
      var f: seq<TestCaseFolder> := [];
      if value.JArray? {
        f := ParseTestCaseFolder(value.items);
      }
      if |f| > 0 {
        pushed := FolderNodes(f);
      }
    } else if key == "TEST-CASE" {
      var t: seq<TestCase> := [];
      if value.JArray? {
        t := ParseTestCase(value.items);
      }
      if |t| > 0 {
        pushed := CaseNodes(t);
      }
    }
  }

  method ParseTestCaseFolder(folder: seq<JSONValue>) returns (res: seq<TestCaseFolder>)
    ensures res == ParsedTestCaseFolders(folder)
  {
    res := [];
    for i := 0 to |folder|
      invariant res == ParsedTestCaseFolders(folder[..i])
    {
      assert folder[..i + 1][..i] == folder[..i];
      assert ParsedTestCaseFolders(folder[..i + 1]) == ParsedTestCaseFolders(folder[..i]) + ParsedFolder(folder[i]);
      match folder[i]
      case JObject(folderContent) =>
        var shortName := Get(folderContent, "SHORT-NAME");
        var k := FindKey(folderContent, "TEST-CASES");
        assert ParsedFolder(folder[i]) == if k.Some? then ParsedFolderWith(folderContent[k.value], shortName) else [];
        if k.Some? && folderContent[k.value].1.JArray? {
          if IsNonEmptyString(shortName) {
            var testCases := ParseTestCases(folderContent[k.value].1.items);
            res := res + [TestCaseFolder(shortName.value.str, None, testCases)];
          }
        }
      case _ =>
    }
    assert folder[..|folder|] == folder;
  }

  // ---------------------------------------------------------------- planned test cases

  /** `parsePlannedTestCases`: PLANNED-TEST-CASE-FOLDER properties become folders; the
      PLANNED-TEST-CASE branch is empty in the source and other properties are ignored. */
  function ParsedPlannedTestCases(items: seq<JSONValue>): seq<PlannedNode>
  {
    if items == [] then [] else ParsedPlannedTestCases(items[..|items| - 1]) + ParsedPlannedItem(items[|items| - 1])
  }

  function ParsedPlannedItem(v: JSONValue): seq<PlannedNode>
  {
    match v
    case JObject(es) => ParsedPlannedEntries(es)
    case _ => []
  }

  function ParsedPlannedEntries(es: JSONObject): seq<PlannedNode>
  {
    if es == [] then [] else ParsedPlannedEntries(es[..|es| - 1]) + ParsedPlannedEntry(es[|es| - 1])
  }

  function ParsedPlannedEntry(e: (string, JSONValue)): seq<PlannedNode>
  {
    if e.0 == "PLANNED-TEST-CASE-FOLDER" then
      match e.1
      case JArray(vs) => PlannedFolderNodes(ParsedPlannedFolders(vs))
      case _ => []
    else []
  }

  /** `parsePlannedTestCaseFolder` on a PLANNED-TEST-CASE-FOLDER array. */
  function ParsedPlannedFolders(vs: seq<JSONValue>): seq<PlannedTestCaseFolder>
  {
    if vs == [] then [] else ParsedPlannedFolders(vs[..|vs| - 1]) + ParsedPlannedFolder(vs[|vs| - 1])
  }

  function ParsedPlannedFolder(v: JSONValue): seq<PlannedTestCaseFolder>
  {
    match v
    case JObject(fc) => ParsedPlannedFolderContent(fc)
    case _ => []
  }

  function ParsedPlannedFolderContent(fc: JSONObject): seq<PlannedTestCaseFolder>
  {
    match FindKey(fc, "PLANNED-TEST-CASES")
    case Some(k) => ParsedPlannedFolderWith(fc[k], Get(fc, "SHORT-NAME"))
    case None => []
  }

  function ParsedPlannedFolderWith(testCases: (string, JSONValue), shortName: Option<JSONValue>): seq<PlannedTestCaseFolder>
  {
    match testCases.1
    case JArray(tcs) =>
      if IsNonEmptyString(shortName) then [PlannedTestCaseFolder(shortName.value.str, ParsedPlannedTestCases(tcs))] else []
    case _ => []
  }

  method ParsePlannedTestCases(testCases: seq<JSONValue>) returns (res: seq<PlannedNode>)
    ensures res == ParsedPlannedTestCases(testCases)
  {
    res := [];
    for i := 0 to |testCases|
      invariant res == ParsedPlannedTestCases(testCases[..i])
    {
      PlannedTestCasesStep(testCases, i);
      ghost var before := res;
      match testCases[i]
      case JObject(tc) =>
        for j := 0 to |tc|
          invariant res == before + ParsedPlannedEntries(tc[..j])
        {
          PlannedEntriesStep(tc, j);
          var pushed := ParsePlannedTestCasesEntry(tc[j]);
          res := res + pushed;
        }
        assert tc[..|tc|] == tc;
        assert ParsedPlannedItem(testCases[i]) == ParsedPlannedEntries(tc);
      case _ =>
        assert ParsedPlannedItem(testCases[i]) == [];
    }
    assert testCases[..|testCases|] == testCases;
  }

  lemma PlannedTestCasesStep(items: seq<JSONValue>, i: nat)
    requires i < |items|
    ensures ParsedPlannedTestCases(items[..i + 1]) == ParsedPlannedTestCases(items[..i]) + ParsedPlannedItem(items[i])
  {
    assert items[..i + 1][..i] == items[..i];
  }

  lemma PlannedEntriesStep(es: JSONObject, j: nat)
    requires j < |es|
    ensures ParsedPlannedEntries(es[..j + 1]) == ParsedPlannedEntries(es[..j]) + ParsedPlannedEntry(es[j])
  {
    assert es[..j + 1][..j] == es[..j];
  }

  /** The `switch (key)` of `parsePlannedTestCases`; its PLANNED-TEST-CASE case is empty. */
  method ParsePlannedTestCasesEntry(entry: (string, JSONValue)) returns (pushed: seq<PlannedNode>)
    ensures pushed == ParsedPlannedEntry(entry)
  {
    var (key, value) := entry;
    pushed := [];
    if key == "PLANNED-TEST-CASE-FOLDER" {
      var f: seq<PlannedTestCaseFolder> := [];
      if value.JArray? {
        f := ParsePlannedTestCaseFolder(value.items);
      }
      if |f| > 0 {
        pushed := PlannedFolderNodes(f);
      }
    }
  }

  method ParsePlannedTestCaseFolder(folder: seq<JSONValue>) returns (res: seq<PlannedTestCaseFolder>)
    ensures res == ParsedPlannedFolders(folder)
  {
    res := [];
    for i := 0 to |folder|
      invariant res == ParsedPlannedFolders(folder[..i])
    {
      assert folder[..i + 1][..i] == folder[..i];
      assert ParsedPlannedFolders(folder[..i + 1]) == ParsedPlannedFolders(folder[..i]) + ParsedPlannedFolder(folder[i]);
      match folder[i]
      case JObject(folderContent) =>
        var shortName := Get(folderContent, "SHORT-NAME");
        var k := FindKey(folderContent, "PLANNED-TEST-CASES");
        assert ParsedPlannedFolder(folder[i]) == if k.Some? then ParsedPlannedFolderWith(folderContent[k.value], shortName) else [];
        if k.Some? && folderContent[k.value].1.JArray? {
          if IsNonEmptyString(shortName) {
            var testCases := ParsePlannedTestCases(folderContent[k.value].1.items);
            res := res + [PlannedTestCaseFolder(shortName.value.str, testCases)];
          }
        }
      case _ =>
    }
    assert folder[..|folder|] == folder;
  }

  // ---------------------------------------------------------------- reports

  /** `getTestReportDate`: the DATE of the first DOC-REVISION of the ADMIN-DATA, when every
      step of that path has the expected shape and the date is a non-empty string. */
  function GetTestReportDate(ts: JSONObject): (r: Option<string>)
    ensures r.Some? ==> r.value != ""
  {
    var adminData := Get(ts, "ADMIN-DATA");
    if !IsPlainObject(adminData) then None
    else
      var docRevs := Get(adminData.value.entries, "DOC-REVISIONS");
      if !IsArray(docRevs) || |docRevs.value.items| == 0 then None
      else
        var docRev := Member(docRevs.value.items[0], "DOC-REVISION");
        if !IsPlainObject(docRev) then None
        else
          var docDate := Get(docRev.value.entries, "DATE");
          if IsNonEmptyString(docDate) then Some(docDate.value.str) else None
  }

  /** The AR-PACKAGE array `getTestSpecObjs` scans: that of the first AR-PACKAGES entry of
      the ATX element (or of the document itself when it has no ATX property). An empty
      AR-PACKAGES makes the lookup throw; the exception is caught and nothing is scanned. */
  function ArPackages(atxOrPkg: JSONObject): seq<JSONValue>
  {
    var atx := if Has(atxOrPkg, "ATX") then Get(atxOrPkg, "ATX").value else JObject(atxOrPkg);
    match atx
    case JObject(a) =>
      if !Has(a, "AR-PACKAGES") then []
      else
        (match Get(a, "AR-PACKAGES").value
         case JArray(arPkg) =>
           if |arPkg| == 0 then []
           else
             (match Member(arPkg[0], "AR-PACKAGE")
              case Some(JArray(arPkgs)) => arPkgs
              case _ => [])
         case _ => [])
    case _ => []
  }

  /** The ELEMENTS of a package, when the package is an object and ELEMENTS an object too
      (an ELEMENTS array has neither TEST-SPEC nor TEST-EXECUTION-PLAN). */
  function PackageElements(pkg: JSONValue): Option<JSONObject>
  {
    match Member(pkg, "ELEMENTS")
    case Some(JObject(elem)) => Some(elem)
    case _ => None
  }

  /** The TEST-SPEC of a package when its CATEGORY is ATX_TEST_REPORT. */
  function PackageTestSpec(pkg: JSONValue): (r: seq<JSONObject>)
    ensures |r| <= 1
  {
    match PackageElements(pkg)
    case Some(elem) =>
      if Has(elem, "TEST-SPEC") then
        (match Get(elem, "TEST-SPEC").value
         case JObject(ts) => if Get(ts, "CATEGORY") == Some(JString("ATX_TEST_REPORT")) then [ts] else []
         case _ => [])
      else []
    case None => []
  }

  /** The TEST-EXECUTION-PLAN of a package, whatever its shape. */
  function PackagePlan(pkg: JSONValue): (r: seq<JSONValue>)
    ensures |r| <= 1
  {
    match PackageElements(pkg)
    case Some(elem) => if Has(elem, "TEST-EXECUTION-PLAN") then [Get(elem, "TEST-EXECUTION-PLAN").value] else []
    case None => []
  }

  /** The test reports found in the packages, in package order. */
  function TestSpecs(pkgs: seq<JSONValue>): seq<JSONObject>
  {
    if pkgs == [] then [] else TestSpecs(pkgs[..|pkgs| - 1]) + PackageTestSpec(pkgs[|pkgs| - 1])
  }

  /** The test execution plans found in the packages, in package order. */
  function TestPlans(pkgs: seq<JSONValue>): seq<JSONValue>
  {
    if pkgs == [] then [] else TestPlans(pkgs[..|pkgs| - 1]) + PackagePlan(pkgs[|pkgs| - 1])
  }

  /** `plans.map((p, idx) => [p, res[idx]])`: the i-th plan with the i-th report, when there is one. */
  function PairUp(plans: seq<JSONValue>, specs: seq<JSONObject>): (r: seq<(JSONValue, Option<JSONObject>)>)
    ensures |r| == |plans|
    ensures forall i :: 0 <= i < |r| ==> r[i].0 == plans[i]
    ensures forall i :: 0 <= i < |r| ==> r[i].1 == if i < |specs| then Some(specs[i]) else None
  {
    seq(|plans|, i requires 0 <= i < |plans| => (plans[i], if i < |specs| then Some(specs[i]) else None))
  }

  function TestSpecPairs(atxOrPkg: JSONObject): seq<(JSONValue, Option<JSONObject>)>
  {
    var pkgs := ArPackages(atxOrPkg);
    PairUp(TestPlans(pkgs), TestSpecs(pkgs))
  }

  /** `getTestSpecObjs`: pairs every test execution plan with the report of the same rank. */
  method GetTestSpecObjs(atxOrPkg: JSONObject) returns (pairs: seq<(JSONValue, Option<JSONObject>)>)
    ensures pairs == TestSpecPairs(atxOrPkg)
  {
    var res: seq<JSONObject> := [];
    var plans: seq<JSONValue> := [];
    var arPkgs := ArPackages(atxOrPkg);
    for i := 0 to |arPkgs|
      invariant res == TestSpecs(arPkgs[..i]) && plans == TestPlans(arPkgs[..i])
    {
      assert arPkgs[..i + 1][..i] == arPkgs[..i];
      var pkg := arPkgs[i];
      var spec: seq<JSONObject> := [];
      var plan: seq<JSONValue> := [];
      if pkg.JObject? {
        var elem := Get(pkg.entries, "ELEMENTS");
        if elem.Some? && elem.value.JObject? {
          var e := elem.value.entries;
          if Has(e, "TEST-SPEC") {
            var ts := Get(e, "TEST-SPEC").value;
            if Member(ts, "CATEGORY") == Some(JString("ATX_TEST_REPORT")) {
              spec := [ts.entries];
            }
          }
          if Has(e, "TEST-EXECUTION-PLAN") {
            plan := [Get(e, "TEST-EXECUTION-PLAN").value];
          }
        }
      }
      assert spec == PackageTestSpec(pkg) && plan == PackagePlan(pkg);
      res := res + spec;
      plans := plans + plan;
    }
    assert arPkgs[..|arPkgs|] == arPkgs;
    pairs := PairUp(plans, res);
  }

  /** What `atxReportParse` does with one (plan, report) pair. */
  datatype Outcome = Stop | Skip | Emit(report: TestReport)

  function ReportOutcome(testPlan: JSONValue, ts: Option<JSONObject>, toDate: string -> int): Outcome
  {
    match ts
    // reading SHORT-NAME of a missing report throws; the exception ends the parse
    case None => Stop
    case Some(spec) =>
      var shortName := Get(spec, "SHORT-NAME");
      var tcs := Get(spec, "TEST-CASES");
      if !IsString(shortName) then Stop
      else if !IsArray(tcs) then Skip
      else
        match testPlan
        case JObject(plan) =>
          var planShortName := Get(plan, "SHORT-NAME");
          var ptcs := Get(plan, "PLANNED-TEST-CASES");
          if !IsString(planShortName) then Stop
          else if !IsArray(ptcs) then Skip
          else
            var date := match GetTestReportDate(spec) case Some(d) => Some(toDate(d)) case None => None;
            Emit(TestReport(shortName.value.str, None, date,
                            TestCaseFolder("", None, ParsedTestCases(tcs.value.items)),
                            PlannedTestCaseFolder(planShortName.value.str, ParsedPlannedTestCases(ptcs.value.items))))
        case _ => Skip
  }

  /** The reports of the pairs: a Skip drops its pair, a Stop drops it and all that follow. */
  function ParsedReports(pairs: seq<(JSONValue, Option<JSONObject>)>, toDate: string -> int): seq<TestReport>
  {
    if pairs == [] then []
    else
      match ReportOutcome(pairs[0].0, pairs[0].1, toDate)
      case Stop => []
      case Skip => ParsedReports(pairs[1..], toDate)
      case Emit(r) => [r] + ParsedReports(pairs[1..], toDate)
  }

  lemma ParsedReportsStep(pairs: seq<(JSONValue, Option<JSONObject>)>, i: nat, toDate: string -> int, outcome: Outcome)
    requires i < |pairs| && outcome == ReportOutcome(pairs[i].0, pairs[i].1, toDate)
    ensures outcome.Stop? ==> ParsedReports(pairs[i..], toDate) == []
    ensures outcome.Skip? ==> ParsedReports(pairs[i..], toDate) == ParsedReports(pairs[i + 1..], toDate)
    ensures outcome.Emit? ==> ParsedReports(pairs[i..], toDate) == [outcome.report] + ParsedReports(pairs[i + 1..], toDate)
  {
    assert pairs[i..][1..] == pairs[i + 1..];
    assert pairs[i..][0] == pairs[i];
  }

  /** The body of the loop of `atxReportParse` on one pair: `break` (or the exception a
      missing report raises) is `Stop`, a warning without push is `Skip`. */
  method ParseReportPair(testPlan: JSONValue, ts: Option<JSONObject>, toDate: string -> int) returns (outcome: Outcome)
    ensures outcome == ReportOutcome(testPlan, ts, toDate)
  {
    if ts.None? {
      return Stop;
    }
    var shortName := Get(ts.value, "SHORT-NAME");
    if !IsString(shortName) {
      return Stop;
    }
    outcome := Skip;
    var tcs := Get(ts.value, "TEST-CASES");
    if IsArray(tcs) {
      var testCases := ParseTestCases(tcs.value.items);
      var root := TestCaseFolder("", None, testCases);
      if testPlan.JObject? {
        var planShortName := Get(testPlan.entries, "SHORT-NAME");
        if !IsString(planShortName) {
          return Stop;
        }
        var ptcs := Get(testPlan.entries, "PLANNED-TEST-CASES");
        if IsArray(ptcs) {
          var plannedTestCases := ParsePlannedTestCases(ptcs.value.items);
          var plan := PlannedTestCaseFolder(planShortName.value.str, plannedTestCases);
          var date := GetTestReportDate(ts.value);
          outcome := Emit(TestReport(shortName.value.str, None,
                                     if date.Some? then Some(toDate(date.value)) else None, root, plan));
        }
      }
    }
  }

  /** `atxReportParse`: the test reports of a decoded document. `toDate` is `new Date(...)`. */
  method AtxReportParse(atx: JSONObject, toDate: string -> int) returns (res: seq<TestReport>)
    ensures res == ParsedReports(TestSpecPairs(atx), toDate)
  {
    var tss := GetTestSpecObjs(atx);
    res := ParseReportPairs(tss, toDate);
  }

  /** The loop of `atxReportParse` over the (plan, report) pairs. */
  method ParseReportPairs(tss: seq<(JSONValue, Option<JSONObject>)>, toDate: string -> int) returns (res: seq<TestReport>)
    ensures res == ParsedReports(tss, toDate)
  {
    res := [];
    var i := 0;
    while i < |tss|
      invariant 0 <= i <= |tss|
      invariant res + ParsedReports(tss[i..], toDate) == ParsedReports(tss, toDate)
    {
      var (testPlan, ts) := tss[i];
      var outcome := ParseReportPair(testPlan, ts, toDate);
      ParsedReportsStep(tss, i, toDate, outcome);
      if outcome.Stop? {
        break;
      }
      if outcome.Emit? {
        res := res + [outcome.report];
      }
      i := i + 1;
    }
    assert tss[|tss|..] == [];
  }
}
