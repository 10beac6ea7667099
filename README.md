# ATX viewer core in Dafny

The ATX viewer loads ASAM ATX test-report files (XML) that are dropped into a browser page.
It parses each file into typed test reports and shows their statistics, names and comparisons.
This project models the viewer's logic and proves properties about it:

- how the decoded document is turned into reports: the results tree (`root`) and the test plan
  tree (`plan`);
- how a results tree is walked (`getTestCases`) and counted (`getFolderStats`);
- which dropped files join the file set, and how the reports of all files are collected and
  ordered by date;
- how two sets of reports are compared: plans are matched greedily by shared planned test-case
  names, then test cases by `originRef` and `shortName`, then classified as regressed or improved;
- the execution overview: the title built from the longest common prefix of the report names,
  the summed statistics, the test cases behind each slice of the summary ring;
- the statistics bar chart: test cases grouped per `TT_TESTSCRIPT_ID`, and the two voting rules
  ("all iterations" and "at least one iteration");
- the text rules of the test-case list: the displayed names and their abbreviation, the first
  line of a description, and shortened argument values.

Modules follow the program's files.

| Module | Models |
|---|---|
| `AtxTypes` | the report interfaces and the statistics record |
| `Json` | the decoder's output |
| `AtxParser` | the report parser |
| `AtxParserProps` | properties of the parser |
| `AtxStats` | the tree walks of the parser file |
| `App` | the file set and loading |
| `AtxCompare` | the comparison view |
| `AtxExecOverview` | the execution overview |
| `AtxStatsBarChart` | the bar chart |
| `AtxTcsList` | the test-case list |

Supporting modules: `Sorting` (a stable insertion sort, on values and in place on an array),
`Seqs`, `Text` and `Wrappers`.

Code of the source that loops or mutates is a `method` with loop invariants. Each such method is
proved equal to a function that states what it computes. The per-script map of the bar chart is
a class with `seq` and `map` fields. The two in-place sorts are methods on an `array`.

Conventions and assumptions:
- **The document.** The output of the XML decoder is a `JSONValue`: a string, number, boolean,
  object (an ordered list of properties) or array. `obj[key]` reads the first property of that
  name.
- **Array-valued keys.** The decoder is configured to make TEST-CASES, TEST-CASE,
  TEST-CASE-FOLDER, the planned variants, DOC-REVISIONS, AR-PACKAGE and AR-PACKAGES always
  arrays (src/App.tsx:71). The parse functions are total: a value of one of these keys that is
  not an array yields nothing.
- **Strings.** A string is a sequence of Unicode characters. Lengths, slices and prefixes
  count characters, where JavaScript counts UTF-16 code units; the two agree on text inside
  the Basic Multilingual Plane (see the lines under "## Left out").
- **Dates.** Dates are integer timestamps. `new Date(text)` is a parameter `toDate`.
- **Execution times.** `Number(...)` of an EXECUTION-TIME is a real (`Json.NumberOf`).
- **`getFolderStats`.** Its callers pass a second argument, a filter function. The definition in
  src/atxReportParser.ts at this revision takes one argument. The model assumes the filter is applied to every test case in
  `getTestCases` order.
- **`getPlannedTestCases`.** It is not defined in this revision of the repository. It is assumed to be the
  depth-first flatten of the planned test cases, like `getTestCases`.
- **Sorting.** `Array.prototype.sort` is stable, and so is the insertion sort that models it. A
  stable sort by a total preorder has exactly one result, so the model is exact for valid dates.
  An unparseable DATE gives an Invalid Date whose `valueOf()` is `NaN`; the comparator of
  src/App.tsx:91-99 then answers 1 in both argument orders, so the order the source produces
  depends on the engine's sort. Integer timestamps cannot express this case.

## Model

| member | source | states |
|---|---|---|
| AtxStats.GetTestCasesMembers | src/atxReportParser.ts:110-118 | a test case is yielded by the walk iff it is a leaf somewhere in the tree |
| AtxStats.NodesTestCasesMembers | src/atxReportParser.ts:110-118 | the walk over a list of entries yields exactly the leaves below one of the entries |
| AtxStats.GetTestCases | src/atxReportParser.ts:110-118 | the depth-first walk; `AtxStats.GetTestCasesMembers` states which cases it yields |
| AtxStats.FolderBucket | src/atxReportParser.ts:67-75 | a verdict is never counted as inconclusive; INCONCLUSIVE is counted as skipped |
| AtxStats.GetFolderStats | src/atxReportParser.ts:54-88 | the loop over the entries, recursing into sub-folders, yields the statistics of the leaves in walk order |
| AtxStats.CasesStatsAppend | src/atxReportParser.ts:63-87 | the statistics of two runs of leaves are the component-wise sum of their statistics |
| AtxStats.FolderStatsAdditive | src/atxReportParser.ts:76-84 | a folder's statistics are the sum of its entries' statistics: a leaf's own verdict and time, a sub-folder's statistics |
| AtxStats.CasesStatsCounts | src/atxReportParser.ts:63-87 | passed+failed+inconclusive+skipped+none equals the number of leaves, and inconclusive stays 0 |
| AtxStats.FolderStatsCountTestCases | src/atxReportParser.ts:54-88 | a folder's counters add up to the number of leaves `getTestCases` yields |
| AtxStats.PlanFolderNames | src/atxReportParser.ts:95-101 | at most one name per top-level plan entry; when all entries are folders, exactly their names in order |
| AtxStats.PlanFolderNamesAreFolders | src/atxReportParser.ts:95-103 | the names are exactly the short names of the top-level planned folders, in plan order; planned test cases contribute nothing |
| AtxStats.GetReportTestName | src/atxReportParser.ts:90-104 | the loop yields the names of the top-level planned folders joined by `,` |
| AtxStats.FoldersOnlyHasNoPlannedCases | src/AtxCompareView.tsx:44 | a plan made only of folders has no planned test cases |
| AtxParser.ParsedTestCase | src/atxReportParser.ts:345-360 | at most one case per element; a kept case has a non-empty name, only name, time and verdict set, and a time iff EXECUTION-TIME is present |
| AtxParser.ParseTestCase | src/atxReportParser.ts:342-362 | the loop yields, in order, the case of every element that qualifies |
| AtxParser.ParseTestCasesEntry | src/atxReportParser.ts:294-306 | TEST-CASE-FOLDER pushes the parsed folders, TEST-CASE the parsed cases, any other key nothing |
| AtxParser.ParseTestCases | src/atxReportParser.ts:288-314 | the nested loops over the elements and their properties yield every entry's contribution in document order |
| AtxParser.ParseTestCaseFolder | src/atxReportParser.ts:316-341 | the loop keeps the folders with array TEST-CASES and non-empty string SHORT-NAME, each built from its parsed entries |
| AtxParser.ParsePlannedTestCasesEntry | src/atxReportParser.ts:242-254 | PLANNED-TEST-CASE-FOLDER pushes the parsed folders; PLANNED-TEST-CASE and other keys push nothing |
| AtxParser.ParsePlannedTestCases | src/atxReportParser.ts:236-260 | the planned loops yield every entry's contribution in document order |
| AtxParser.ParsePlannedTestCaseFolder | src/atxReportParser.ts:261-286 | the loop keeps the planned folders with array PLANNED-TEST-CASES and non-empty string SHORT-NAME |
| AtxParser.GetTestReportDate | src/atxReportParser.ts:222-234 | a found date text is never empty |
| AtxParser.PairUp | src/atxReportParser.ts:219 | one pair per plan: plan i with report i when there is one, else with nothing |
| AtxParser.GetTestSpecObjs | src/atxReportParser.ts:185-220 | the loop over the packages of the first AR-PACKAGES entry collects the qualifying reports and all plans, then pairs them by rank |
| AtxParser.ParseReportPair | src/atxReportParser.ts:131-172 | one pair gives a report, a skip (bad TEST-CASES, plan or PLANNED-TEST-CASES) or a stop (no report, non-string SHORT-NAME of report or plan) |
| AtxParser.ParsedReportsStep | src/atxReportParser.ts:130-173 | a stop ends the list, a skip drops its pair, a report is prepended to the rest |
| AtxParser.ParseReportPairs | src/atxReportParser.ts:130-173 | the loop over the pairs yields the reports of the pairs before the first stop, skips dropped |
| AtxParser.AtxReportParse | src/atxReportParser.ts:126-178 | the result is the list of the reports of the document's pairs; it never fails |
| AtxParserProps.KeepsTestCaseIff | src/atxReportParser.ts:345-358 | a case is kept iff SHORT-NAME is a non-empty string and VERDICT-RESULT a non-array object with a string VERDICT; it carries those values |
| AtxParserProps.ParsedTestCaseListKept | src/atxReportParser.ts:342-362 | one case per qualifying element, in order, each the parse of the matching element of that order-preserving subsequence |
| AtxParserProps.ParsedEntriesIgnoresOtherKeys | src/atxReportParser.ts:293-307 | removing all properties other than TEST-CASE-FOLDER and TEST-CASE does not change the result |
| AtxParserProps.ParsedFolderIff | src/atxReportParser.ts:321-331 | a folder is kept iff TEST-CASES is an array and SHORT-NAME a non-empty string, and then holds the parse of that array |
| AtxParserProps.ParsedTestCasesWellFormed | src/atxReportParser.ts:288-341 | every built tree has non-empty names and only name, time and verdict set in its leaves |
| AtxParserProps.EncodeCaseRoundTrip | src/atxReportParser.ts:345-357 | parsing the canonical element of a well-formed case gives back that case |
| AtxParserProps.ParsedEncodeNodes | src/atxReportParser.ts:288-341 | parsing the canonical encoding of any well-formed tree gives back the tree |
| AtxParserProps.ParsedPlannedFoldersOnly | src/atxReportParser.ts:247-250 | every built plan entry is a folder, at every depth |
| AtxParserProps.ReportOutcomeShape | src/atxReportParser.ts:139-162 | a built report has an unnamed root over a well-formed tree and a plan of folders only |
| AtxParserProps.ParsedReportsShape | src/atxReportParser.ts:126-178 | at most one report per pair, each of that shape |
| AtxParserProps.SkipDropsOnlyThatPair | src/atxReportParser.ts:164-172 | a skipped pair is as if it were absent |
| AtxParserProps.StopEndsParse | src/atxReportParser.ts:132-150 | a stopping pair discards it and every later pair |
| AtxParserProps.UnpairedPlansIgnored | src/atxReportParser.ts:218-219 | plans ranked beyond the last qualifying report contribute nothing |
| AtxParser.PackageTestSpec | src/atxReportParser.ts:199-207 | a package contributes at most one test report |
| AtxParser.PackagePlan | src/atxReportParser.ts:199-207 | a package contributes at most one test plan |
| AtxParserProps.TestSpecsAreReports | src/atxReportParser.ts:195-209 | every collected report has CATEGORY ATX_TEST_REPORT (the per-package bound is the ensures of `AtxParser.PackageTestSpec` and `AtxParser.PackagePlan`) |
| AtxParserProps.ArPackagesFirstOnly | src/atxReportParser.ts:189-193 | for any document, with or without the ATX wrapper, the packages are the AR-PACKAGE array of the first AR-PACKAGES entry; later entries do not matter |
| AtxParserProps.TestReportDateAtPath | src/atxReportParser.ts:222-234 | for any test spec whose ADMIN-DATA holds a first DOC-REVISION with a non-empty DATE, that DATE is the report date |
| AtxParserProps.TestReportDateOnlyAtPath | src/atxReportParser.ts:222-234 | a report date is found only at that path: it is the DATE of the first DOC-REVISION of ADMIN-DATA |
| App.IncludesFileIsMembership | src/App.tsx:20-26 | a file is included iff an equal file (name, type, modification time) is in the set |
| App.AddDroppedFiles | src/App.tsx:36-43 | the old files stay first and in order; each added file is an XML file of the drop not yet in the set; every XML file of the drop ends up in the set |
| App.AddedFilesKeepDropOrder | src/App.tsx:36-43 | the added files are a subsequence of the drop |
| App.RedropAddsNothing | src/App.tsx:40-43 | dropping the same files again leaves the set unchanged |
| App.DuplicatesInOneDropKept | src/App.tsx:41-42 | a new XML file dropped twice in one drop is added twice |
| App.AddedFilesCount | src/App.tsx:36-43 | each file is added exactly as often as it occurs in the drop when it is an XML file not yet in the set, and otherwise never |
| App.IsXmlFile | src/App.tsx:36 | the extension filter; its effect on the file set is stated by `App.AddDroppedFiles` and `App.AddedFilesCount` |
| App.IsSameFile | src/App.tsx:20-22 | two files are the same iff their name, type and modification time agree, which is equality of the modelled `File` |
| App.IncludesFile | src/App.tsx:24-26 | `find` over `isSameFile`; `App.IncludesFileIsMembership` proves it is membership |
| App.CompareDates | src/App.tsx:91-99 | answers -1, 0 or 1; 0 exactly for equal dates; an undefined date sorts before a defined one; `App.CompareReportsIsTotalPreorder` proves it a valid sort order |
| App.CompareReportsIsTotalPreorder | src/App.tsx:91-99 | the date comparator is antisymmetric and transitive |
| App.SortedByDateIff | src/App.tsx:91-99 | sorted by the comparator iff undated reports first and dated ones in non-decreasing order |
| App.PerFileReports | src/App.tsx:75-87 | one list per file: its parsed reports, or none when decoding threw |
| App.LoadReports | src/App.tsx:72-101 | parse each file, drop empty results, flatten, sort in place: the result is the stable date sort of the collected reports |
| App.LoadedReportsDateOrdered | src/App.tsx:90-101 | the loaded list has undated reports first, then non-decreasing dates |
| App.LoadedReportsArePermutation | src/App.tsx:88-101 | the loaded list is a permutation of all parsed reports of all files |
| App.LoadedReportsStable | src/App.tsx:88-101 | reports with equal dates keep their file order |
| Sorting.SortInPlace | src/App.tsx:91 | the array afterwards holds the stable insertion sort of its old contents |
| Sorting.InsertionSortPermutes | src/App.tsx:91 | sorting permutes its input |
| Sorting.InsertionSortSorted | src/App.tsx:91 | by a total preorder, the result is sorted |
| Sorting.InsertionSortStable | src/App.tsx:91 | equivalent elements keep their relative order |
| Sorting.SortSortedIsIdentity | src/App.tsx:91 | a sorted input is left as is |
| AtxCompare.GetDiff | src/AtxCompareView.tsx:14-32 | the loop with its `splice`s computes the greedy diff, element of A by element of A |
| AtxCompare.DiffPartitionsA | src/AtxCompareView.tsx:20-31 | A is interleaved from the first components of `common` and `missingInB`: each element once, both in A's order |
| AtxCompare.DiffAccountsForB | src/AtxCompareView.tsx:16-25 | `common` plus `newInB` is as long as B; their B elements form B's multiset; `newInB` is a subsequence of B |
| AtxCompare.DiffWithoutMatches | src/AtxCompareView.tsx:20-28 | when nothing of A is found, all of B is new and all of A missing |
| AtxCompare.MatchCountIsOverlap | src/AtxCompareView.tsx:47 | the overlap counts the report's planned cases whose name occurs among the candidate's planned cases |
| AtxCompare.MatchCountOfNothing | src/AtxCompareView.tsx:47 | a report without planned cases overlaps with nothing |
| AtxCompare.Overlaps | src/AtxCompareView.tsx:44-49 | one overlap count per candidate |
| AtxCompare.FirstMaxIndex | src/AtxCompareView.tsx:50 | the index of a maximum, the lowest such index (strict `>`) |
| AtxCompare.FindIndexMatchingTPs | src/AtxCompareView.tsx:42-53 | -1 exactly when the pool is empty or every overlap is 0; otherwise the first candidate of maximal, positive overlap |
| AtxCompare.FindIndexMatchingTPsInRange | src/AtxCompareView.tsx:42-53 | the result is always -1 or an index into the pool |
| AtxCompare.PlanDiff | src/AtxCompareView.tsx:55 | the plan diff: A is interleaved from the common plans and those missing in B; the common plans and those new in B account for B's multiset |
| AtxCompare.NoPlannedCasesNoMatch | src/AtxCompareView.tsx:43-52 | a report without planned test cases matches no plan |
| AtxCompare.ParsedPlansNeverPaired | src/AtxCompareView.tsx:55 | with plans of folders only (what the parser builds), no plans pair: all of B is new, all of A missing |
| AtxCompare.FirstPartner | src/AtxCompareView.tsx:69 | the first A case with a truthy, equal `originRef` and the same `shortName`, or none |
| AtxCompare.CommonTestCases | src/AtxCompareView.tsx:64-73 | the loop over B's cases pushes each matched case with its first partner |
| AtxCompare.CommonPairsArePartners | src/AtxCompareView.tsx:68-72 | every common pair is an A case and a B case that are partners |
| AtxCompare.CommonPairsKeepOrder | src/AtxCompareView.tsx:68-72 | the B cases of the pairs are a subsequence of B |
| AtxCompare.CommonPairsComplete | src/AtxCompareView.tsx:68-72 | every B case that has a partner in A is paired |
| AtxCompare.SplitByVerdictInA | src/AtxCompareView.tsx:75 | the reduce sends the pairs whose A verdict is PASSED to the first list and the others to the second, in order |
| AtxCompare.ClassifyCommon | src/AtxCompareView.tsx:74-77 | regressed: A PASSED and B not; improved: A not PASSED and B PASSED; both in order |
| AtxCompare.ClassificationDisjoint | src/AtxCompareView.tsx:74-77 | no pair is both regressed and improved; a pair with equal verdicts is in neither |
| AtxCompare.RegressedImprovedTPTCs | src/AtxCompareView.tsx:58-80 | one entry per common plan pair, index-aligned, each that pair's regressed and improved cases |
| AtxCompare.SelfCompareNoChanges | src/AtxCompareView.tsx:64-77 | when partners always agree on verdicts, comparing cases with themselves reports no change |
| AtxCompare.SelfCompareWithSharedKey | src/AtxCompareView.tsx:64-77 | two cases sharing `originRef` and name but not verdict: a self comparison reports a regression |
| AtxExecOverview.CompareLengthsIsTotalPreorder | src/AtxExecOverview.tsx:44 | the length comparator is antisymmetric and transitive |
| AtxExecOverview.CommonPrefix | src/AtxExecOverview.tsx:46-50 | a prefix of both strings that cannot be extended |
| AtxExecOverview.CommonPrefixIsLongest | src/AtxExecOverview.tsx:46-50 | every common prefix of two strings is a prefix of theirs |
| AtxExecOverview.LcpIsLongest | src/AtxExecOverview.tsx:43-50 | the common prefix of a list starts every string, and every common prefix of a non-empty list is a prefix of it |
| AtxExecOverview.CommonPrefixOfPermutation | src/AtxExecOverview.tsx:44 | the common prefixes do not depend on the order of the strings |
| AtxExecOverview.LcpUnique | src/AtxExecOverview.tsx:44-50 | a common prefix of a member that no longer prefix of that member extends is the longest common prefix |
| AtxExecOverview.LongestCommonPrefix | src/AtxExecOverview.tsx:42-51 | sorts the array in place by length, stably, and returns the longest common prefix (`""` for an empty array) |
| AtxExecOverview.ReportNames | src/AtxExecOverview.tsx:61 | one name per report, its `getReportTestName` |
| AtxExecOverview.Suffixes | src/AtxExecOverview.tsx:65 | one entry per name: `-` and the name after the prefix |
| AtxExecOverview.ReportTitleOfOne | src/AtxExecOverview.tsx:62 | a single report's title is its name |
| AtxExecOverview.ReportTitle | src/AtxExecOverview.tsx:60-69 | the title; `AtxExecOverview.ReportTitleOfOne`, `AtxExecOverview.TitleNamesSpec` and `AtxExecOverview.TitleNamesStable` state what it lists |
| AtxExecOverview.TitleNamesSpec | src/AtxExecOverview.tsx:63-67 | the listed names are a permutation of the names, shortest first; prefix plus listed rest rebuilds each name |
| AtxExecOverview.TitleNamesStable | src/AtxExecOverview.tsx:44 | names of equal length keep their report order (the sort is stable) |
| AtxExecOverview.ShownTitle | src/AtxExecOverview.tsx:239 | the displayed title is the title's end, at most 1000 characters |
| AtxExecOverview.SumStats | src/AtxExecOverview.tsx:74-88 | the loop sums `getFolderStats` component-wise over the reports |
| AtxExecOverview.ReportsStatsAreDetailStats | src/AtxExecOverview.tsx:70-86 | the summed statistics are those of the `detailTcs` list |
| AtxExecOverview.ReportsStatsCounts | src/AtxExecOverview.tsx:70-86 | the summed counters add up to the number of test cases in `detailTcs`; inconclusive stays 0 |
| AtxExecOverview.DetailTcsMembers | src/AtxExecOverview.tsx:70 | a test case is in `detailTcs` iff it is a leaf of one of the reports |
| AtxExecOverview.DetailTcs | src/AtxExecOverview.tsx:70 | the test cases of all reports, report after report; `AtxExecOverview.DetailTcsMembers` and `AtxExecOverview.ReportsStatsAreDetailStats` state what it holds |
| AtxExecOverview.SliceSelectionSpec | src/AtxExecOverview.tsx:123-133 | a slice shows a subsequence of `detailTcs`, exactly the cases whose verdict starts as that slice requires |
| AtxExecOverview.SliceMatches | src/AtxExecOverview.tsx:123-132 | the verdict pattern of each slice; `AtxExecOverview.SlicesDisjoint` proves no verdict matches two slices |
| AtxExecOverview.SliceSelection | src/AtxExecOverview.tsx:133 | the filter of `detailTcs`; `AtxExecOverview.SliceSelectionSpec` states what it keeps |
| AtxExecOverview.SliceFirstLetter | src/AtxExecOverview.tsx:125-131 | a matching verdict starts with the slice's letter (P, F or E, I, S, N) |
| AtxExecOverview.SlicesDisjoint | src/AtxExecOverview.tsx:125-131 | no verdict matches two slices |
| AtxExecOverview.SliceSelectionsMatchStats | src/AtxExecOverview.tsx:74-133 | with known verdicts, each slice shows as many cases as its counter; inconclusive and skipped share the skipped counter |
| AtxStatsBarChart.ScriptId | src/AtxStatsBarChart.tsx:28-29 | a case has a script id iff its constants hold TT_TESTSCRIPT_ID |
| AtxStatsBarChart.ScriptBucket | src/AtxStatsBarChart.tsx:36-45 | PASSED to passed, FAILED and ERROR to failed, INCONCLUSIVE and NONE to their own counters, and only those; everything else to skipped |
| AtxStatsBarChart.ScriptIdStats.constructor | src/AtxStatsBarChart.tsx:26 | the map starts empty |
| AtxStatsBarChart.ScriptIdStats.FilterFn | src/AtxStatsBarChart.tsx:27-49 | always returns true; a case with a script id creates its entry on first sight and adds its verdict and time to it |
| AtxStatsBarChart.ScriptIdStats.Tally | src/AtxStatsBarChart.tsx:55-91 | the `forEach`, in insertion order, casts one vote per script into each aggregate |
| AtxStatsBarChart.CastVote | src/AtxStatsBarChart.tsx:73-86 | one vote adds one to the chosen counter and the script's time |
| AtxStatsBarChart.AllItVote | src/AtxStatsBarChart.tsx:73-77 | a passed, failed, none or skipped vote means every iteration had that verdict |
| AtxStatsBarChart.GtEq1Vote | src/AtxStatsBarChart.tsx:81-85 | passed iff some iteration passed; a failed, inconclusive or none vote means some iteration had that verdict |
| AtxStatsBarChart.VoteStatsCountsScripts | src/AtxStatsBarChart.tsx:55-93 | each aggregate's counters add up to the number of scripts; its time is the sum of the scripts' times |
| AtxStatsBarChart.AllPassedImpliesGtEq1Passed | src/AtxStatsBarChart.tsx:73-85 | a script whose iterations all passed votes passed in both rules |
| AtxStatsBarChart.AllFailedImpliesGtEq1Failed | src/AtxStatsBarChart.tsx:73-85 | a script whose iterations all failed votes failed in both rules |
| AtxStatsBarChart.GtEq1SkippedImpliesAllSkipped | src/AtxStatsBarChart.tsx:73-85 | a skipped vote under the at-least-one rule means every iteration was skipped |
| AtxStatsBarChart.IdOrderIsKeys | src/AtxStatsBarChart.tsx:29-33 | the insertion order lists every key of the map once |
| AtxStatsBarChart.IdStatsKeysOccur | src/AtxStatsBarChart.tsx:28-33 | an id is a key iff some test case carries it |
| AtxStatsBarChart.IdStatsPerId | src/AtxStatsBarChart.tsx:27-45 | an id's entry is the statistics of exactly the cases carrying it |
| AtxStatsBarChart.ScriptCasesStatsCount | src/AtxStatsBarChart.tsx:35-45 | each case adds one to exactly one counter |
| AtxStatsBarChart.IdOrderIsKeyCount | src/AtxStatsBarChart.tsx:93 | the map's size is the number of distinct ids |
| AtxStatsBarChart.VisitFolder | src/AtxStatsBarChart.tsx:53 | visiting a report's tree feeds each of its test cases to `filterFn` in walk order |
| AtxStatsBarChart.BarChartStats | src/AtxStatsBarChart.tsx:21-96 | number of scripts and both aggregates are those of all reports' test cases in order |
| AtxStatsBarChart.ChartStatsCounts | src/AtxStatsBarChart.tsx:55-93 | both aggregates have one vote per script and the same total time |
| AtxTcsList.DisplayName | src/AtxTCsList.tsx:35 | the long name when present and non-empty, else the short name |
| AtxTcsList.SameNamingRule | src/AtxTCsList.tsx:73 | a step folder's name follows the test case's rule of line 35: the same names display the same |
| AtxTcsList.Abbrev | src/AtxTCsList.tsx:36 | names up to 100 characters unchanged; longer ones are 97 characters plus `...`, exactly 100 |
| AtxTcsList.AbbrevIdempotent | src/AtxTCsList.tsx:74 | abbreviating twice is abbreviating once (the same rule serves test cases, line 36) |
| AtxTcsList.NameTooltipIff | src/AtxTCsList.tsx:44 | the tooltip is set iff the name was cut, iff the display differs, and then holds the full name (line 88 likewise for step folders) |
| AtxTcsList.FirstLine | src/AtxTCsList.tsx:32 | a prefix without line break, ended by a line break or the end |
| AtxTcsList.Split | src/AtxTCsList.tsx:30-32 | at least one line, the first being the first line; no line holds a line break |
| AtxTcsList.SplitHasLinesIff | src/AtxTCsList.tsx:30 | more than one line iff the text has a line break |
| AtxTcsList.SplitJoinRoundTrip | src/AtxTCsList.tsx:30 | joining the lines with line breaks gives back the text |
| AtxTcsList.DescHasMultiLines | src/AtxTCsList.tsx:30 | true iff the description is present and holds a line break |
| AtxTcsList.DescFirstLine | src/AtxTCsList.tsx:31-34 | at most 120 characters, no line break; the first line itself, or its first 95 characters and the marker |
| AtxTcsList.ArgumentValueText | src/AtxTCsList.tsx:60 | values up to 120 characters unchanged; longer ones are `...` and their last 120 characters |
| Text.ToLower | src/App.tsx:36 | same length, each ASCII letter lower-cased |

## Left out

- Rendering: React components, hooks, Chart.js options, legends and tooltips (including the
  tooltip wrap patterns), Dropzone, and colours (`mapVerdictToColor`, `getVerdictForFolder`,
  the step folder's expansion and label). They decide what is drawn, not what is computed.
- Reading the files (`file.text()`, `Promise.all`) and the XML decoder. A file arrives as its
  decoded document, or as nothing when decoding threw.
- `new Date(text)` and `Number(text)`. Dates are integer timestamps produced by a parameter.
  Execution times are reals; the text conversion and `NaN` are not modelled.
- Number and date formatting (`toLocaleString`, `Intl.NumberFormat`), `window.matchMedia`, and
  `console` output, which has no observable effect.
- The IndexedDB persistence (src/db.ts), the reference selection form
  (src/SelectReferenceForm.tsx) and the build configuration (vite.config.ts). They hold no
  report logic.
- `getPlannedTestCases`, the step and argument parsing, and the parser's fields `originRef`,
  `desc`, `steps`, `testArguments` and `testConstants`. None of these is defined in this revision of
  the repository. The test-case record carries those fields with the shapes their use sites need. The
  parser leaves them empty, as src/atxReportParser.ts at this revision does.
- The click on a single ring segment (src/AtxExecOverview.tsx:114-121). It passes one element
  of `detailTcs` on and computes nothing.
- A TEST-CASE value that is a number or a plain object. The source would throw on it, but the
  decoder configuration rules it out. The model yields no test case.
- A browser `File` is reduced to the three properties that are compared: name, type and
  modification time.
- `AtxCompare.GetDiff` requires that `findIndex` answers an index into the pool or a negative
  number, as the source's `splice` assumes. The actual matcher meets this
  (`AtxCompare.FindIndexMatchingTPsInRange`).
- Abbrev: `AtxTcsList.Abbrev` counts the 100-character limit and the 97-character cut in
  Unicode characters, while JavaScript's `length` and `substring` count UTF-16 code units. A
  name with characters outside the Basic Multilingual Plane is abbreviated later in the model
  (60 emoji are 120 code units and cut by the source, not by the model), and a cut cannot
  split a surrogate pair.
- NameTooltipIff: `AtxTcsList.NameTooltipIff` compares lengths in Unicode characters, not
  UTF-16 code units, so for names with characters outside the Basic Multilingual Plane the
  tooltip appears only when the model's `Abbrev` cuts, which is later than in the source.
- DescFirstLine: `AtxTcsList.DescFirstLine` measures the 120-character limit and the
  95-character cut in Unicode characters, not UTF-16 code units, so a first line with
  characters outside the Basic Multilingual Plane is shortened later, and never mid-pair.
- ArgumentValueText: `AtxTcsList.ArgumentValueText` keeps the last 120 Unicode characters, not
  the last 120 UTF-16 code units, so a value with characters outside the Basic Multilingual
  Plane keeps more text, and its kept end never starts with a lone low surrogate.
- ShownTitle: `AtxExecOverview.ShownTitle` keeps the last 1000 Unicode characters, not the last
  1000 UTF-16 code units, so a title with characters outside the Basic Multilingual Plane keeps
  more text and is never cut inside a surrogate pair.
- LongestCommonPrefix: `AtxExecOverview.LongestCommonPrefix` sorts by length and shortens the
  prefix in Unicode characters, not UTF-16 code units. For names with characters outside the
  Basic Multilingual Plane the sort order can differ (for `["ab", "😀"]` the source keeps
  `"ab"` first, both being two code units long, while the model puts the emoji first) and the source's prefix can end in half a surrogate pair (`"a\uD83D"`
  for `"a😀"` and `"a😁"`), where the model's prefix is `"a"`.
- TitleNamesSpec: `AtxExecOverview.TitleNamesSpec` states the length order, the prefix and the
  slices in Unicode characters, not UTF-16 code units; with characters outside the Basic
  Multilingual Plane the listed order and the listed rests can differ from the source's, as
  for `LongestCommonPrefix`.
- ReportTitle: `AtxExecOverview.ReportTitle` and `AtxExecOverview.TitleNames` inherit the
  character counting of `LongestCommonPrefix`: the title of names with characters outside the
  Basic Multilingual Plane can list them in another order and with another prefix than the
  source.
- AtxExecOverview.LongestCommonPrefix: the `return ""` inside the loop is omitted. The loop
  cannot reach it: the empty string is a prefix of every string, so the loop ends before
  `shortestStr` becomes empty.
- AtxExecOverview.SumStats: the source adds `stat.inconclusive`, which
  `getFolderStats` in src/atxReportParser.ts at this revision never sets, so the JavaScript sum would be `NaN`. The model carries 0
  instead. The ring shows this value as the inconclusive segment. Its legend entry is hidden
  for both values, because `> 0` is false for `NaN` and for 0.
- AtxStats.GetFolderStats: counts INCONCLUSIVE as skipped and has no inconclusive counter, as
  in src/atxReportParser.ts at this revision.
- The parser properties hold for the entries as the decoder delivers them. Decoder-level
  behaviour (attribute names, text nodes) is not modelled.
