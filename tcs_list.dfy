/** The texts of the test case list (src/AtxTCsList.tsx): displayed names and their abbreviation,
    the first line of a description and the shortened argument values. */
module AtxTcsList {
  import opened Wrappers
  import opened Text
  import opened AtxTypes

  // ---------------------------------------------------------------- names

  /** `longName || shortName`: the long name unless it is missing or empty. */
  function DisplayName(longName: Option<string>, shortName: string): (r: string)
    ensures longName.Some? && longName.value != "" ==> r == longName.value
    ensures longName.None? || longName.value == "" ==> r == shortName
  {
    if longName.Some? && longName.value != "" then longName.value else shortName
  }

  /** `tcName` of a test case. */
  function TestCaseName(tc: TestCase): string
  {
    DisplayName(tc.longName, tc.shortName)
  }

  /** `tsName` of a test step folder. */
  function StepFolderName(folder: TestStepFolder): string
  {
    DisplayName(folder.longName, folder.shortName)
  }

  /** Test cases and step folders with the same names display the same. */
  lemma SameNamingRule(tc: TestCase, folder: TestStepFolder)
    requires tc.longName == folder.longName && tc.shortName == folder.shortName
    ensures TestCaseName(tc) == StepFolderName(folder)
  {
  }

  const MaxNameLength := 100

  /** `name.length > 100 ? name.slice(0, 97) + '...' : name`. */
  function Abbrev(name: string): (r: string)
    ensures |name| <= MaxNameLength ==> r == name
    ensures |name| > MaxNameLength ==> |r| == MaxNameLength && r == name[..MaxNameLength - 3] + "..."
  {
    if |name| > MaxNameLength then name[..MaxNameLength - 3] + "..." else name
  }

  /** Abbreviating an abbreviated name changes nothing. */
  lemma AbbrevIdempotent(name: string)
    ensures Abbrev(Abbrev(name)) == Abbrev(name)
  {
  }

  /** The `title` of a name: the full name, set only when abbreviating changed its length. */
  function NameTooltip(name: string): Option<string>
  {
    if |name| != |Abbrev(name)| then Some(name) else None
  }

  /** The full name is offered exactly when it was cut, which is exactly when the displayed
      text differs from it. */
  lemma NameTooltipIff(name: string)
    ensures NameTooltip(name).Some? <==> |name| > MaxNameLength
    ensures NameTooltip(name).Some? <==> Abbrev(name) != name
    ensures NameTooltip(name).Some? ==> NameTooltip(name).value == name
  {
  }

  // ---------------------------------------------------------------- descriptions

  /** `s.split('\n')[0]`: the text before the first line break. */
  function FirstLine(s: string): (r: string)
    ensures r <= s && '\n' !in r
    ensures |r| < |s| ==> s[|r|] == '\n'
  {
    if s == [] || s[0] == '\n' then "" else [s[0]] + FirstLine(s[1..])
  }

  /** `s.split('\n')`: the lines of `s`, without their line breaks. */
  function Split(s: string): (r: seq<string>)
    ensures |r| >= 1 && r[0] == FirstLine(s)
    ensures forall i :: 0 <= i < |r| ==> '\n' !in r[i]
    decreases |s|
  {
    var line := FirstLine(s);
    if |line| == |s| then [s] else [line] + Split(s[|line| + 1..])
  }

  /** There is more than one line iff there is a line break. */
  lemma {:induction false} SplitHasLinesIff(s: string)
    ensures |Split(s)| > 1 <==> '\n' in s
  {
    var line := FirstLine(s);
    if |line| < |s| {
      assert s[|line|] == '\n';
    } else {
      assert line == s;
    }
  }

  lemma {:induction false} JoinCons(sep: string, a: string, rest: seq<string>)
    requires rest != []
    ensures Join(sep, [a] + rest) == a + sep + Join(sep, rest)
    decreases |rest|
  {
    if |rest| > 1 {
      var init := rest[..|rest| - 1];
      JoinCons(sep, a, init);
      assert ([a] + rest)[..|rest|] == [a] + init;
    } else {
      assert [a] + rest == [a, rest[0]];
    }
  }

  lemma SplitAround(s: string, line: string)
    requires line <= s && |line| < |s| && s[|line|] == '\n'
    ensures s == line + "\n" + s[|line| + 1..]
  {
  }

  /** Joining the lines with line breaks gives back the text. */
  lemma {:induction false} SplitJoinRoundTrip(s: string)
    ensures Join("\n", Split(s)) == s
    decreases |s|
  {
    var line := FirstLine(s);
    if |line| < |s| {
      var rest := s[|line| + 1..];
      SplitJoinRoundTrip(rest);
      JoinCons("\n", line, Split(rest));
      SplitAround(s, line);
    } else {
      assert line == s;
    }
  }

  /** `descHasMultiLines`: a description that is present, not empty, and splits into more than one
      line. */
  function DescHasMultiLines(desc: Option<string>): (r: bool)
    ensures r <==> desc.Some? && '\n' in desc.value
  {
    SplitHasLinesIff(if desc.Some? then desc.value else "");
    desc.Some? && desc.value != "" && |Split(desc.value)| > 1
  }

  const MaxLineLength := 120
  const MoreMarker := "... <click to show more>"

  /** `descFirstLine`: the first line of the description, cut to 95 characters plus a marker
      when it is longer than 120. */
  function DescFirstLine(desc: Option<string>): (r: string)
    ensures |r| <= MaxLineLength
    ensures '\n' !in r
    ensures var line := if desc.Some? then FirstLine(desc.value) else "";
            (|line| <= MaxLineLength ==> r == line) && (|line| > MaxLineLength ==> r == line[..95] + MoreMarker)
  {
    var firstLine := if desc.Some? then Split(desc.value)[0] else "";
    if |firstLine| > MaxLineLength then firstLine[..95] + MoreMarker else firstLine
  }

  // ---------------------------------------------------------------- argument values

  /** The displayed argument value: `'...'` and the last 120 characters when it is longer. */
  function ArgumentValueText(value: string): (r: string)
    ensures |value| <= MaxLineLength ==> r == value
    ensures |value| > MaxLineLength ==> |r| == MaxLineLength + 3 && r[..3] == "..." && EndsWith(value, r[3..])
  {
    if |value| > MaxLineLength then "..." + value[|value| - MaxLineLength..] else value
  }
}
