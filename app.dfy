/** The application's own logic (src/App.tsx): which dropped files join the file set, and
    how the reports of all files are collected and ordered by date. Reading the files and
    decoding their XML are outside the model: each file arrives as its decoded document, or
    as `None` when decoding threw. */
module App {
  import opened Wrappers
  import opened Text
  import opened Json
  import opened AtxTypes
  import opened AtxParser
  import Seqs
  import Sorting

  /** The properties of a browser `File` the application compares. */
  datatype File = File(name: string, mimeType: string, lastModified: int)

  // ---------------------------------------------------------------- the file set

  /** `isSameFile`: same name, type and modification time. */
  predicate IsSameFile(a: File, b: File)
    ensures IsSameFile(a, b) <==> a == b
  {
    a.name == b.name && a.mimeType == b.mimeType && a.lastModified == b.lastModified
  }

  /** `includesFile`: `find` locates a file of `fs` that is the same as `f`. */
  predicate IncludesFile(fs: seq<File>, f: File)
  {
    exists i :: 0 <= i < |fs| && IsSameFile(fs[i], f)
  }

  /** The three compared properties are all a `File` holds here, so "the same" is equality. */
  lemma IncludesFileIsMembership(fs: seq<File>, f: File)
    ensures IncludesFile(fs, f) <==> f in fs
  {
    if f in fs {
      var i :| 0 <= i < |fs| && fs[i] == f;
      assert IsSameFile(fs[i], f);
    }
  }

  /** The extension filter of `onDrop`: the lower-cased name ends with `.xml` or `.atxml`. */
  predicate IsXmlFile(f: File)
  {
    var lowName := ToLower(f.name);
    EndsWith(lowName, ".xml") || EndsWith(lowName, ".atxml")
  }

  /** `onDrop`: the XML files of the drop that are not yet in the set are appended in drop
      order; duplicates within one drop are not removed. */
  function AddDroppedFiles(files: seq<File>, accepted: seq<File>): (r: seq<File>)
    ensures files <= r
    ensures forall i :: |files| <= i < |r| ==> IsXmlFile(r[i]) && !IncludesFile(files, r[i]) && r[i] in accepted
    ensures forall f :: f in accepted && IsXmlFile(f) ==> IncludesFile(r, f)
  {
    var posXmlFiles := Seqs.Filter(accepted, IsXmlFile);
    var nonDuplFiles := Seqs.Filter(posXmlFiles, f => !IncludesFile(files, f));
    var r := files + nonDuplFiles;
    assert forall f :: f in accepted && IsXmlFile(f) ==> IncludesFile(r, f) by {
      forall f | f in accepted && IsXmlFile(f)
        ensures IncludesFile(r, f)
      {
        IncludesFileIsMembership(files, f);
        IncludesFileIsMembership(r, f);
        assert f in posXmlFiles;
      }
    }
    r
  }

  /** The appended files keep the order of the drop. */
  lemma AddedFilesKeepDropOrder(files: seq<File>, accepted: seq<File>)
    ensures Seqs.IsSubseq(AddDroppedFiles(files, accepted)[|files|..], accepted)
  {
    var posXmlFiles := Seqs.Filter(accepted, IsXmlFile);
    var nonDuplFiles := Seqs.Filter(posXmlFiles, f => !IncludesFile(files, f));
    assert AddDroppedFiles(files, accepted)[|files|..] == nonDuplFiles;
    Seqs.FilterIsSubseq(accepted, IsXmlFile);
    Seqs.FilterIsSubseq(posXmlFiles, f => !IncludesFile(files, f));
    Seqs.SubseqTrans(nonDuplFiles, posXmlFiles, accepted);
  }

  /** Dropping the same files again adds nothing. */
  lemma RedropAddsNothing(files: seq<File>, accepted: seq<File>)
    ensures AddDroppedFiles(AddDroppedFiles(files, accepted), accepted) == AddDroppedFiles(files, accepted)
  {
    var r := AddDroppedFiles(files, accepted);
    var posXmlFiles := Seqs.Filter(accepted, IsXmlFile);
    Seqs.FilterNothing(posXmlFiles, f => !IncludesFile(r, f));
    assert r + [] == r;
  }

  /** A new XML file is added as often as it occurs in the drop; any other file is not added. */
  lemma AddedFilesCount(files: seq<File>, accepted: seq<File>, f: File)
    ensures multiset(AddDroppedFiles(files, accepted)[|files|..])[f]
         == if IsXmlFile(f) && !IncludesFile(files, f) then multiset(accepted)[f] else 0
  {
    var posXmlFiles := Seqs.Filter(accepted, IsXmlFile);
    var nonDuplFiles := Seqs.Filter(posXmlFiles, f => !IncludesFile(files, f));
    assert AddDroppedFiles(files, accepted)[|files|..] == nonDuplFiles;
    Seqs.FilterCount(accepted, IsXmlFile, f);
    Seqs.FilterCount(posXmlFiles, f => !IncludesFile(files, f), f);
  }

  /** A file dropped twice in one drop is added twice. */
  lemma DuplicatesInOneDropKept(files: seq<File>, f: File)
    requires IsXmlFile(f) && !IncludesFile(files, f)
    ensures AddDroppedFiles(files, [f, f]) == files + [f, f]
  {
    assert [f, f][..1] == [f];
    assert [f][..0] == [];
  }

  // ---------------------------------------------------------------- the report order

  /** The comparator of the report sort: equal dates (both undefined included) tie, an
      undefined date comes first, defined dates ascend. */
  function CompareDates(datA: Option<int>, datB: Option<int>): (r: int)
    ensures -1 <= r <= 1
    ensures r == 0 <==> datA == datB
    ensures datA.None? && datB.Some? ==> r == -1
  {
    if datA == datB then 0
    else if datA.None? then -1
    else if datB.None? then 1
    else if datA.value < datB.value then -1
    else 1
  }

  function CompareReports(a: TestReport, b: TestReport): int
  {
    CompareDates(a.date, b.date)
  }

  /** The comparator is a valid sort order: antisymmetric and transitive. */
  lemma CompareReportsIsTotalPreorder()
    ensures Sorting.IsTotalPreorder(CompareReports)
  {
    forall x, y
      ensures Sorting.FlipsAt(CompareReports, x, y)
    {
    }
    forall x, y, z
      ensures Sorting.TransitiveAt(CompareReports, x, y, z)
    {
    }
  }

  /** Reports without a date first, then the dated ones in non-decreasing date order. */
  predicate DateOrdered(rs: seq<TestReport>)
  {
    forall i, j :: 0 <= i < j < |rs| && rs[i].date.Some? ==> rs[j].date.Some? && rs[i].date.value <= rs[j].date.value
  }

  /** Sorted by the comparator means exactly date-ordered. */
  lemma SortedByDateIff(rs: seq<TestReport>)
    ensures Sorting.SortedBy(rs, CompareReports) <==> DateOrdered(rs)
  {
    if Sorting.SortedBy(rs, CompareReports) {
      forall i, j | 0 <= i < j < |rs| && rs[i].date.Some?
        ensures rs[j].date.Some? && rs[i].date.value <= rs[j].date.value
      {
        assert CompareReports(rs[i], rs[j]) <= 0;
      }
    }
    if DateOrdered(rs) {
      forall i, j | 0 <= i < j < |rs|
        ensures CompareReports(rs[i], rs[j]) <= 0
      {
      }
    }
  }

  // ---------------------------------------------------------------- loading

  /** What one file contributes: the reports of its document, none when decoding threw. */
  function FileReports(doc: Option<JSONObject>, toDate: string -> int): seq<TestReport>
  {
    match doc
    case Some(d) => ParsedReports(TestSpecPairs(d), toDate)
    case None => []
  }

  function PerFileReports(docs: seq<Option<JSONObject>>, toDate: string -> int): (r: seq<seq<TestReport>>)
    ensures |r| == |docs| && forall i :: 0 <= i < |docs| ==> r[i] == FileReports(docs[i], toDate)
  {
    seq(|docs|, i requires 0 <= i < |docs| => FileReports(docs[i], toDate))
  }

  predicate NonEmpty(rs: seq<TestReport>)
  {
    |rs| > 0
  }

  /** The files' reports, empty results dropped, flattened in file order. */
  function CollectedReports(docs: seq<Option<JSONObject>>, toDate: string -> int): seq<TestReport>
  {
    Seqs.Flatten(Seqs.Filter(PerFileReports(docs, toDate), NonEmpty))
  }

  /** The report list the application shows. */
  function LoadedReports(docs: seq<Option<JSONObject>>, toDate: string -> int): seq<TestReport>
  {
    Sorting.InsertionSort(CollectedReports(docs, toDate), CompareReports)
  }

  /** The loading effect: parse every file, drop the empty results, flatten, sort by date in place. */
  method LoadReports(docs: seq<Option<JSONObject>>, toDate: string -> int) returns (reports: seq<TestReport>)
    ensures reports == LoadedReports(docs, toDate)
  {
    var perFile: seq<seq<TestReport>> := [];
    for i := 0 to |docs|
      invariant |perFile| == i
      invariant forall k :: 0 <= k < i ==> perFile[k] == FileReports(docs[k], toDate)
    {
      var rs: seq<TestReport> := [];
      if docs[i].Some? {
        rs := AtxReportParse(docs[i].value, toDate);
      }
      perFile := perFile + [rs];
    }
    assert perFile == PerFileReports(docs, toDate);
    var collected := Seqs.Flatten(Seqs.Filter(perFile, NonEmpty));
    var a := new TestReport[|collected|](i requires 0 <= i < |collected| => collected[i]);
    assert a[..] == collected;
    Sorting.SortInPlace(a, CompareReports);
    reports := a[..];
  }

  /** The loaded list is date-ordered. */
  lemma LoadedReportsDateOrdered(docs: seq<Option<JSONObject>>, toDate: string -> int)
    ensures DateOrdered(LoadedReports(docs, toDate))
  {
    CompareReportsIsTotalPreorder();
    Sorting.InsertionSortSorted(CollectedReports(docs, toDate), CompareReports);
    SortedByDateIff(LoadedReports(docs, toDate));
  }

  /** The loaded list holds every report of every file, each as often as it was parsed. */
  lemma LoadedReportsArePermutation(docs: seq<Option<JSONObject>>, toDate: string -> int)
    ensures multiset(LoadedReports(docs, toDate)) == multiset(Seqs.Flatten(PerFileReports(docs, toDate)))
  {
    Sorting.InsertionSortPermutes(CollectedReports(docs, toDate), CompareReports);
    Seqs.FlattenSkipsEmpty(PerFileReports(docs, toDate), NonEmpty);
  }

  /** Reports with the same date (or both without one) keep their file order. */
  lemma LoadedReportsStable(docs: seq<Option<JSONObject>>, toDate: string -> int, y: TestReport)
    ensures Sorting.EquivalentsOf(LoadedReports(docs, toDate), y, CompareReports)
         == Sorting.EquivalentsOf(Seqs.Flatten(PerFileReports(docs, toDate)), y, CompareReports)
  {
    CompareReportsIsTotalPreorder();
    Sorting.InsertionSortStable(CollectedReports(docs, toDate), y, CompareReports);
    Seqs.FlattenSkipsEmpty(PerFileReports(docs, toDate), NonEmpty);
  }
}
