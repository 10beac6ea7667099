/** What the report parser guarantees about the trees it builds (src/atxReportParser.ts):
    which document entries it keeps, that its trees are exactly the well-formed ones (a
    round trip through a canonical encoding), that parsed plans hold folders only, and how
    one bad (plan, report) pair affects the list of reports. */
module AtxParserProps {
  import opened Wrappers
  import opened Json
  import opened AtxTypes
  import opened AtxParser
  import opened AtxStats
  import Seqs

  // ---------------------------------------------------------------- which entries are kept

  /** An element of a TEST-CASE array that `parseTestCase` turns into a test case. */
  predicate KeepsTestCase(v: JSONValue)
  {
    ParsedTestCase(v) != []
  }

  /** A case is kept iff it has a non-empty string SHORT-NAME and a VERDICT-RESULT object
      whose VERDICT is a string; it then carries exactly those values. */
  lemma KeepsTestCaseIff(v: JSONValue)
    ensures KeepsTestCase(v) <==>
      v.JObject? && IsNonEmptyString(Get(v.entries, "SHORT-NAME")) && IsPlainObject(Get(v.entries, "VERDICT-RESULT"))
      && IsString(Get(Get(v.entries, "VERDICT-RESULT").value.entries, "VERDICT"))
    ensures KeepsTestCase(v) ==>
      ParsedTestCase(v)[0].shortName == Get(v.entries, "SHORT-NAME").value.str
      && ParsedTestCase(v)[0].verdict == Get(Get(v.entries, "VERDICT-RESULT").value.entries, "VERDICT").value.str
  {
  }

  /** `parseTestCase` on an array keeps the good elements, in order, and drops the rest:
      its result is, element by element, the image of the subsequence of kept elements. */
  lemma {:induction false} ParsedTestCaseListKept(vs: seq<JSONValue>)
    ensures |ParsedTestCaseList(vs)| == |Seqs.Filter(vs, KeepsTestCase)|
    ensures forall i :: 0 <= i < |ParsedTestCaseList(vs)| ==>
              ParsedTestCase(Seqs.Filter(vs, KeepsTestCase)[i]) == [ParsedTestCaseList(vs)[i]]
    ensures Seqs.IsSubseq(Seqs.Filter(vs, KeepsTestCase), vs)
  {
    Seqs.FilterIsSubseq(vs, KeepsTestCase);
    if vs != [] {
      var init := vs[..|vs| - 1];
      var last := vs[|vs| - 1];
      ParsedTestCaseListKept(init);
      assert ParsedTestCaseList(vs) == ParsedTestCaseList(init) + ParsedTestCase(last);
    }
  }

  /** The element names `parseTestCases` reads. */
  predicate IsTestCaseKey(e: (string, JSONValue))
  {
    e.0 == "TEST-CASE-FOLDER" || e.0 == "TEST-CASE"
  }

  /** Only TEST-CASE-FOLDER and TEST-CASE properties contribute: removing every other
      property of an object changes nothing. */
  lemma {:induction false} ParsedEntriesIgnoresOtherKeys(es: JSONObject)
    ensures ParsedEntries(es) == ParsedEntries(Seqs.Filter(es, IsTestCaseKey))
  {
    if es != [] {
      var init := es[..|es| - 1];
      var last := es[|es| - 1];
      ParsedEntriesIgnoresOtherKeys(init);
      var fi := Seqs.Filter(init, IsTestCaseKey);
      assert Seqs.Filter(es, IsTestCaseKey) == fi + (if IsTestCaseKey(last) then [last] else []);
      if IsTestCaseKey(last) {
        assert (fi + [last])[..|fi + [last]| - 1] == fi;
        assert ParsedEntries(fi + [last]) == ParsedEntries(fi) + ParsedEntry(last);
      } else {
        assert ParsedEntry(last) == [];
        assert Seqs.Filter(es, IsTestCaseKey) == fi;
      }
      assert ParsedEntries(es) == ParsedEntries(init) + ParsedEntry(last);
    }
  }

  /** A folder is kept iff its TEST-CASES is an array and its SHORT-NAME a non-empty string;
      it then holds what that array parses to. */
  lemma ParsedFolderIff(v: JSONValue)
    ensures ParsedFolder(v) != [] <==>
      v.JObject? && IsArray(Get(v.entries, "TEST-CASES")) && IsNonEmptyString(Get(v.entries, "SHORT-NAME"))
    ensures ParsedFolder(v) != [] ==>
      ParsedFolder(v) == [TestCaseFolder(Get(v.entries, "SHORT-NAME").value.str, None,
                                         ParsedTestCases(Get(v.entries, "TEST-CASES").value.items))]
  {
    if v.JObject? {
      var fc := v.entries;
      GetIsFindKey(fc, "TEST-CASES");
      assert ParsedFolder(v) == ParsedFolderContent(fc);
      match FindKey(fc, "TEST-CASES")
      case Some(k) =>
        assert Get(fc, "TEST-CASES") == Some(fc[k].1);
        assert ParsedFolderContent(fc) == ParsedFolderWith(fc[k], Get(fc, "SHORT-NAME"));
      case None =>
    }
  }

  // ---------------------------------------------------------------- well-formed trees

  /** A leaf as the parser builds it: a non-empty name, and nothing read but name, time and verdict. */
  predicate WellFormedCase(tc: TestCase)
  {
    tc.shortName != "" && tc == NewTestCase(tc.shortName, tc.executionTimeInSec, tc.verdict)
  }

  /** A sub-folder as the parser builds it: a non-empty name, no long name, well-formed entries. */
  predicate WellFormedFolder(f: TestCaseFolder)
  {
    f.shortName != "" && f.longName == None && WellFormedNodes(f.testCases)
  }

  predicate WellFormedNodes(ns: seq<TestCaseNode>)
  {
    forall i :: 0 <= i < |ns| ==> WellFormedNode(ns[i])
  }

  predicate WellFormedNode(n: TestCaseNode)
  {
    match n
    case Case(tc) => WellFormedCase(tc)
    case Folder(f) => WellFormedFolder(f)
  }

  lemma WellFormedAppend(a: seq<TestCaseNode>, b: seq<TestCaseNode>)
    requires WellFormedNodes(a) && WellFormedNodes(b)
    ensures WellFormedNodes(a + b)
  {
    assert forall i :: 0 <= i < |a + b| ==> (a + b)[i] == if i < |a| then a[i] else b[i - |a|];
  }

  /** Every tree `parseTestCases` builds is well-formed. */
  lemma {:induction false} ParsedTestCasesWellFormed(items: seq<JSONValue>)
    ensures WellFormedNodes(ParsedTestCases(items))
  {
    if items != [] {
      ParsedTestCasesWellFormed(items[..|items| - 1]);
      ParsedItemWellFormed(items[|items| - 1]);
      WellFormedAppend(ParsedTestCases(items[..|items| - 1]), ParsedItem(items[|items| - 1]));
    }
  }

  lemma {:induction false} ParsedItemWellFormed(v: JSONValue)
    ensures WellFormedNodes(ParsedItem(v))
  {
    match v
    case JObject(es) => ParsedEntriesWellFormed(es);
    case _ =>
  }

  lemma {:induction false} ParsedEntriesWellFormed(es: JSONObject)
    ensures WellFormedNodes(ParsedEntries(es))
  {
    if es != [] {
      ParsedEntriesWellFormed(es[..|es| - 1]);
      ParsedEntryWellFormed(es[|es| - 1]);
      WellFormedAppend(ParsedEntries(es[..|es| - 1]), ParsedEntry(es[|es| - 1]));
    }
  }

  lemma {:induction false} ParsedEntryWellFormed(e: (string, JSONValue))
    ensures WellFormedNodes(ParsedEntry(e))
  {
    if e.0 == "TEST-CASE-FOLDER" {
      match e.1
      case JArray(vs) => ParsedFoldersWellFormed(vs);
      case _ =>
    } else if e.0 == "TEST-CASE" {
      match e.1
      case JArray(vs) => ParsedTestCaseListWellFormed(vs);
      case _ =>
    }
  }

  lemma {:induction false} ParsedTestCaseListWellFormed(vs: seq<JSONValue>)
    ensures forall i :: 0 <= i < |ParsedTestCaseList(vs)| ==> WellFormedCase(ParsedTestCaseList(vs)[i])
  {
    if vs != [] {
      var init := vs[..|vs| - 1];
      ParsedTestCaseListWellFormed(init);
      assert ParsedTestCaseList(vs) == ParsedTestCaseList(init) + ParsedTestCase(vs[|vs| - 1]);
    }
  }

  lemma {:induction false} ParsedFoldersWellFormed(vs: seq<JSONValue>)
    ensures forall i :: 0 <= i < |ParsedTestCaseFolders(vs)| ==> WellFormedFolder(ParsedTestCaseFolders(vs)[i])
  {
    if vs != [] {
      var init := vs[..|vs| - 1];
      ParsedFoldersWellFormed(init);
      ParsedFolderWellFormed(vs[|vs| - 1]);
      assert ParsedTestCaseFolders(vs) == ParsedTestCaseFolders(init) + ParsedFolder(vs[|vs| - 1]);
    }
  }

  lemma {:induction false} ParsedFolderWellFormed(v: JSONValue)
    ensures forall i :: 0 <= i < |ParsedFolder(v)| ==> WellFormedFolder(ParsedFolder(v)[i])
  {
    if v.JObject? {
      var k := FindKey(v.entries, "TEST-CASES");
      if k.Some? {
        ParsedFolderWithWellFormed(v.entries[k.value], Get(v.entries, "SHORT-NAME"));
        assert ParsedFolder(v) == ParsedFolderWith(v.entries[k.value], Get(v.entries, "SHORT-NAME"));
      }
    }
  }

  lemma {:induction false} ParsedFolderWithWellFormed(testCases: (string, JSONValue), shortName: Option<JSONValue>)
    ensures forall i :: 0 <= i < |ParsedFolderWith(testCases, shortName)| ==>
              WellFormedFolder(ParsedFolderWith(testCases, shortName)[i])
  {
    match testCases.1
    case JArray(tcs) => ParsedTestCasesWellFormed(tcs);
    case _ =>
  }

  // ---------------------------------------------------------------- round trip

  /** The canonical TEST-CASE element of a test case. */
  function EncodeCase(tc: TestCase): JSONValue
  {
    JObject([("SHORT-NAME", JString(tc.shortName)), ("VERDICT-RESULT", JObject([("VERDICT", JString(tc.verdict))]))]
            + match tc.executionTimeInSec case Some(t) => [("EXECUTION-TIME", JNumber(t))] case None => [])
  }

  /** The canonical TEST-CASE-FOLDER element of a folder. */
  function EncodeFolder(f: TestCaseFolder): JSONValue
  {
    JObject([("SHORT-NAME", JString(f.shortName)), ("TEST-CASES", JArray(EncodeNodes(f.testCases)))])
  }

  /** One object per entry, in order, each holding a one-element TEST-CASE or TEST-CASE-FOLDER array. */
  function EncodeNodes(ns: seq<TestCaseNode>): seq<JSONValue>
  {
    if ns == [] then [] else EncodeNodes(ns[..|ns| - 1]) + [EncodeNode(ns[|ns| - 1])]
  }

  function EncodeNode(n: TestCaseNode): JSONValue
  {
    match n
    case Case(tc) => JObject([("TEST-CASE", JArray([EncodeCase(tc)]))])
    case Folder(f) => JObject([("TEST-CASE-FOLDER", JArray([EncodeFolder(f)]))])
  }

  lemma EncodeCaseRoundTrip(tc: TestCase)
    requires WellFormedCase(tc)
    ensures ParsedTestCase(EncodeCase(tc)) == [tc]
  {
    var es := EncodeCase(tc).entries;
    assert es[0] == ("SHORT-NAME", JString(tc.shortName));
    assert es[1] == ("VERDICT-RESULT", JObject([("VERDICT", JString(tc.verdict))]));
    assert Get(es, "SHORT-NAME") == Some(JString(tc.shortName));
    assert Get(es, "VERDICT-RESULT") == Some(JObject([("VERDICT", JString(tc.verdict))]));
    assert es[1..][1..] == es[2..];
    assert Get(es, "EXECUTION-TIME") == Get(es[1..], "EXECUTION-TIME") == Get(es[2..], "EXECUTION-TIME");
    match tc.executionTimeInSec
    case Some(t) =>
      assert es[2..] == [("EXECUTION-TIME", JNumber(t))];
      assert Get(es, "EXECUTION-TIME") == Some(JNumber(t));
    case None =>
      assert es[2..] == [];
  }

  /** Every well-formed tree is what `parseTestCases` makes of its encoding; with
      `ParsedTestCasesWellFormed`, the trees the parser builds are exactly the well-formed ones. */
  lemma {:induction false} ParsedEncodeNodes(ns: seq<TestCaseNode>)
    requires WellFormedNodes(ns)
    ensures ParsedTestCases(EncodeNodes(ns)) == ns
  {
    if ns != [] {
      var init := ns[..|ns| - 1];
      var last := ns[|ns| - 1];
      assert WellFormedNode(last);
      ParsedEncodeNodes(init);
      ParsedEncodeNode(last);
      var items := EncodeNodes(ns);
      assert items[..|items| - 1] == EncodeNodes(init);
      assert items[|items| - 1] == EncodeNode(last);
      assert ns == init + [last];
    }
  }

  lemma {:induction false} ParsedEncodeNode(n: TestCaseNode)
    requires WellFormedNode(n)
    ensures ParsedItem(EncodeNode(n)) == [n]
  {
    match n
    case Case(tc) =>
      var e := ("TEST-CASE", JArray([EncodeCase(tc)]));
      EncodeCaseRoundTrip(tc);
      assert [EncodeCase(tc)][..0] == [];
      assert ParsedTestCaseList([EncodeCase(tc)]) == [tc];
      assert ParsedEntry(e) == [n];
      assert [e][..0] == [];
      assert EncodeNode(n) == JObject([e]);
      assert ParsedEntries([e]) == ParsedEntries([]) + ParsedEntry(e);
    case Folder(f) =>
      var e := ("TEST-CASE-FOLDER", JArray([EncodeFolder(f)]));
      ParsedEncodeFolder(f);
      assert [EncodeFolder(f)][..0] == [];
      assert ParsedTestCaseFolders([EncodeFolder(f)]) == [f];
      assert ParsedEntry(e) == [n];
      assert [e][..0] == [];
      assert EncodeNode(n) == JObject([e]);
      assert ParsedEntries([e]) == ParsedEntries([]) + ParsedEntry(e);
  }

  lemma {:induction false} ParsedEncodeFolder(f: TestCaseFolder)
    requires WellFormedFolder(f)
    ensures ParsedFolder(EncodeFolder(f)) == [f]
  {
    var fc := EncodeFolder(f).entries;
    ParsedEncodeNodes(f.testCases);
    assert fc[0].0 == "SHORT-NAME" && fc[1].0 == "TEST-CASES";
    assert FindKey(fc, "TEST-CASES") == Some(1);
    assert Get(fc, "SHORT-NAME") == Some(JString(f.shortName));
    assert ParsedFolderContent(fc) == ParsedFolderWith(fc[1], Get(fc, "SHORT-NAME"));
    assert f == TestCaseFolder(f.shortName, None, f.testCases);
  }

  // ---------------------------------------------------------------- plans

  /** In this version PLANNED-TEST-CASE entries contribute nothing: a parsed plan holds
      folders only, at every depth. */
  lemma {:induction false} ParsedPlannedFoldersOnly(items: seq<JSONValue>)
    ensures forall i :: 0 <= i < |ParsedPlannedTestCases(items)| ==> PlannedNodeFoldersOnly(ParsedPlannedTestCases(items)[i])
  {
    if items != [] {
      var init := items[..|items| - 1];
      ParsedPlannedFoldersOnly(init);
      ParsedPlannedItemFoldersOnly(items[|items| - 1]);
      assert ParsedPlannedTestCases(items) == ParsedPlannedTestCases(init) + ParsedPlannedItem(items[|items| - 1]);
    }
  }

  lemma {:induction false} ParsedPlannedItemFoldersOnly(v: JSONValue)
    ensures forall i :: 0 <= i < |ParsedPlannedItem(v)| ==> PlannedNodeFoldersOnly(ParsedPlannedItem(v)[i])
  {
    match v
    case JObject(es) => ParsedPlannedEntriesFoldersOnly(es);
    case _ =>
  }

  lemma {:induction false} ParsedPlannedEntriesFoldersOnly(es: JSONObject)
    ensures forall i :: 0 <= i < |ParsedPlannedEntries(es)| ==> PlannedNodeFoldersOnly(ParsedPlannedEntries(es)[i])
  {
    if es != [] {
      var init := es[..|es| - 1];
      var last := es[|es| - 1];
      ParsedPlannedEntriesFoldersOnly(init);
      ParsedPlannedEntryFoldersOnly(last);
      assert ParsedPlannedEntries(es) == ParsedPlannedEntries(init) + ParsedPlannedEntry(last);
    }
  }

  lemma {:induction false} ParsedPlannedEntryFoldersOnly(e: (string, JSONValue))
    ensures forall i :: 0 <= i < |ParsedPlannedEntry(e)| ==> PlannedNodeFoldersOnly(ParsedPlannedEntry(e)[i])
  {
    if e.0 == "PLANNED-TEST-CASE-FOLDER" {
      match e.1
      case JArray(vs) => ParsedPlannedFoldersFoldersOnly(vs);
      case _ =>
    }
  }

  lemma {:induction false} ParsedPlannedFoldersFoldersOnly(vs: seq<JSONValue>)
    ensures forall i :: 0 <= i < |ParsedPlannedFolders(vs)| ==> FoldersOnly(ParsedPlannedFolders(vs)[i])
  {
    if vs != [] {
      var init := vs[..|vs| - 1];
      ParsedPlannedFoldersFoldersOnly(init);
      ParsedPlannedFolderFoldersOnly(vs[|vs| - 1]);
      assert ParsedPlannedFolders(vs) == ParsedPlannedFolders(init) + ParsedPlannedFolder(vs[|vs| - 1]);
    }
  }

  lemma {:induction false} ParsedPlannedFolderFoldersOnly(v: JSONValue)
    ensures forall i :: 0 <= i < |ParsedPlannedFolder(v)| ==> FoldersOnly(ParsedPlannedFolder(v)[i])
  {
    if v.JObject? {
      var k := FindKey(v.entries, "PLANNED-TEST-CASES");
      if k.Some? {
        ParsedPlannedFolderWithFoldersOnly(v.entries[k.value], Get(v.entries, "SHORT-NAME"));
        assert ParsedPlannedFolder(v) == ParsedPlannedFolderWith(v.entries[k.value], Get(v.entries, "SHORT-NAME"));
      }
    }
  }

  lemma {:induction false} ParsedPlannedFolderWithFoldersOnly(testCases: (string, JSONValue), shortName: Option<JSONValue>)
    ensures forall i :: 0 <= i < |ParsedPlannedFolderWith(testCases, shortName)| ==>
              FoldersOnly(ParsedPlannedFolderWith(testCases, shortName)[i])
  {
    match testCases.1
    case JArray(tcs) => ParsedPlannedFoldersOnly(tcs);
    case _ =>
  }

  // ---------------------------------------------------------------- reports

  /** A report as `atxReportParse` builds it: an unnamed root over a well-formed tree, and a
      plan of folders only, so without planned test cases. */
  predicate ParsedReportShape(r: TestReport)
  {
    r.root.shortName == "" && r.root.longName == None && WellFormedNodes(r.root.testCases)
    && FoldersOnly(r.plan) && GetPlannedTestCases(r.plan) == []
  }

  lemma ReportOutcomeShape(testPlan: JSONValue, ts: Option<JSONObject>, toDate: string -> int)
    ensures ReportOutcome(testPlan, ts, toDate).Emit? ==> ParsedReportShape(ReportOutcome(testPlan, ts, toDate).report)
  {
    var o := ReportOutcome(testPlan, ts, toDate);
    if o.Emit? {
      var spec := ts.value;
      var plan := testPlan.entries;
      ParsedTestCasesWellFormed(Get(spec, "TEST-CASES").value.items);
      ParsedPlannedFoldersOnly(Get(plan, "PLANNED-TEST-CASES").value.items);
      FoldersOnlyHasNoPlannedCases(o.report.plan);
    }
  }

  /** At most one report per pair, each of the shape the parser builds. */
  lemma {:induction false} ParsedReportsShape(pairs: seq<(JSONValue, Option<JSONObject>)>, toDate: string -> int)
    ensures |ParsedReports(pairs, toDate)| <= |pairs|
    ensures forall i :: 0 <= i < |ParsedReports(pairs, toDate)| ==> ParsedReportShape(ParsedReports(pairs, toDate)[i])
  {
    if pairs != [] {
      ParsedReportsShape(pairs[1..], toDate);
      ReportOutcomeShape(pairs[0].0, pairs[0].1, toDate);
    }
  }

  /** A pair with a bad TEST-CASES, plan or PLANNED-TEST-CASES drops that pair only. */
  lemma {:induction false} SkipDropsOnlyThatPair(pairs: seq<(JSONValue, Option<JSONObject>)>, i: nat, toDate: string -> int)
    requires i < |pairs| && ReportOutcome(pairs[i].0, pairs[i].1, toDate).Skip?
    ensures ParsedReports(pairs, toDate) == ParsedReports(pairs[..i] + pairs[i + 1..], toDate)
  {
    var rest := pairs[..i] + pairs[i + 1..];
    if i == 0 {
      assert rest == pairs[1..];
    } else {
      var tail := pairs[1..];
      SkipDropsOnlyThatPair(tail, i - 1, toDate);
      assert rest[0] == pairs[0];
      assert rest[1..] == tail[..i - 1] + tail[i..];
    }
  }

  /** A missing report or a non-string SHORT-NAME ends the parse: later pairs add nothing. */
  lemma {:induction false} StopEndsParse(pairs: seq<(JSONValue, Option<JSONObject>)>, i: nat, toDate: string -> int)
    requires i < |pairs| && ReportOutcome(pairs[i].0, pairs[i].1, toDate).Stop?
    ensures ParsedReports(pairs, toDate) == ParsedReports(pairs[..i], toDate)
  {
    if i == 0 {
      assert pairs[..0] == [];
    } else {
      var tail := pairs[1..];
      StopEndsParse(tail, i - 1, toDate);
      assert pairs[..i][0] == pairs[0];
      assert pairs[..i][1..] == tail[..i - 1];
    }
  }

  /** Plans beyond the last qualifying TEST-SPEC contribute nothing. */
  lemma UnpairedPlansIgnored(atx: JSONObject, toDate: string -> int)
    ensures var pairs := TestSpecPairs(atx);
            var n := |TestSpecs(ArPackages(atx))|;
            n < |pairs| ==> ParsedReports(pairs, toDate) == ParsedReports(pairs[..n], toDate)
  {
    var pairs := TestSpecPairs(atx);
    var n := |TestSpecs(ArPackages(atx))|;
    if n < |pairs| {
      StopEndsParse(pairs, n, toDate);
    }
  }

  // ---------------------------------------------------------------- test specifications

  /** Every collected TEST-SPEC has CATEGORY ATX_TEST_REPORT; each package yields at most one
      report and at most one plan. */
  lemma {:induction false} TestSpecsAreReports(pkgs: seq<JSONValue>)
    ensures |TestSpecs(pkgs)| <= |pkgs| && |TestPlans(pkgs)| <= |pkgs|
    ensures forall i :: 0 <= i < |TestSpecs(pkgs)| ==> Get(TestSpecs(pkgs)[i], "CATEGORY") == Some(JString("ATX_TEST_REPORT"))
  {
    if pkgs != [] {
      var init := pkgs[..|pkgs| - 1];
      TestSpecsAreReports(init);
      assert TestSpecs(pkgs) == TestSpecs(init) + PackageTestSpec(pkgs[|pkgs| - 1]);
    }
  }

  /** Only the first entry of AR-PACKAGES is scanned: the packages are the AR-PACKAGE array of
      that entry, whatever follows it, inside an ATX element or at the top of the document. */
  lemma ArPackagesFirstOnly(doc: JSONObject, a: JSONObject, first: JSONValue, rest: seq<JSONValue>)
    requires (if Has(doc, "ATX") then Get(doc, "ATX").value else JObject(doc)) == JObject(a)
    requires Get(a, "AR-PACKAGES") == Some(JArray([first] + rest))
    ensures ArPackages(doc) == match Member(first, "AR-PACKAGE") case Some(JArray(p)) => p case _ => []
  {
  }

  /** The date found is the DATE of the first DOC-REVISION of the ADMIN-DATA, whatever other
      properties the objects on that path hold. */
  lemma TestReportDateAtPath(ts: JSONObject, admin: JSONObject, revs: seq<JSONValue>, rev: JSONObject, d: string)
    requires Get(ts, "ADMIN-DATA") == Some(JObject(admin))
    requires Get(admin, "DOC-REVISIONS") == Some(JArray(revs)) && |revs| > 0
    requires Member(revs[0], "DOC-REVISION") == Some(JObject(rev))
    requires Get(rev, "DATE") == Some(JString(d)) && d != ""
    ensures GetTestReportDate(ts) == Some(d)
  {
  }

  /** A date is found only on that path. */
  lemma TestReportDateOnlyAtPath(ts: JSONObject)
    ensures GetTestReportDate(ts).Some? ==>
              exists admin: JSONObject, revs: seq<JSONValue>, rev: JSONObject ::
                Get(ts, "ADMIN-DATA") == Some(JObject(admin))
                && Get(admin, "DOC-REVISIONS") == Some(JArray(revs)) && |revs| > 0
                && Member(revs[0], "DOC-REVISION") == Some(JObject(rev))
                && Get(rev, "DATE") == Some(JString(GetTestReportDate(ts).value))
  {
    if GetTestReportDate(ts).Some? {
      var admin := Get(ts, "ADMIN-DATA").value.entries;
      var revs := Get(admin, "DOC-REVISIONS").value.items;
      var rev := Member(revs[0], "DOC-REVISION").value.entries;
      assert Get(rev, "DATE") == Some(JString(GetTestReportDate(ts).value));
    }
  }
}
