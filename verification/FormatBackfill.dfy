/** Splitting legacy problem statements at their Input and Output headings. */
module FormatBackfill {
  import opened Verdicts
  import opened Lines
  import opened GoText

  // ---- Headings ----

  datatype Heading = InputHeading | OutputHeading

  /** The class \s of Go's regular expressions. */
  predicate AsciiSpace(c: char) {
    c == ' ' || c == '\t' || c == '\n' || c == '\U{000C}' || c == '\r'
  }

  function SkipAscii(s: string): string {
    if s != "" && AsciiSpace(s[0]) then SkipAscii(s[1..]) else s
  }

  function DropAscii(s: string): string {
    if s != "" && AsciiSpace(s[|s| - 1]) then DropAscii(s[..|s| - 1]) else s
  }

  function Hashes(s: string): (n: nat)
    ensures n <= |s|
  {
    if s != "" && s[0] == '#' then 1 + Hashes(s[1..]) else 0
  }

  /** Without an optional run of one to six hashes and the blanks behind it. */
  function WithoutMarks(s: string): string {
    var n := Hashes(s);
    if 1 <= n <= 6 && n < |s| && AsciiSpace(s[n]) then SkipAscii(s[n..]) else s
  }

  /** Without an optional colon at the end and the blanks around it. */
  function WithoutColon(s: string): string {
    var t := DropAscii(s);
    if t != "" && t[|t| - 1] == ':' then DropAscii(t[..|t| - 1]) else t
  }

  function Lower(s: string): string {
    if s == "" then ""
    else [if 'A' <= s[0] <= 'Z' then (s[0] as int + 32) as char else s[0]] + Lower(s[1..])
  }

  lemma {:induction false} LowerPointwise(s: string)
    ensures |Lower(s)| == |s|
    ensures forall k :: 0 <= k < |s| ==> Lower(s)[k] == if 'A' <= s[k] <= 'Z' then (s[k] as int + 32) as char else s[k]
  {
    if s != "" {
      LowerPointwise(s[1..]);
    }
  }

  /** The heading a line is, if any. A heading with other white space between its two words
      passes the source's pattern but none of its cases, and so is no heading. */
  function HeadingOf(line: string): Option<Heading> {
    var word := Lower(WithoutColon(WithoutMarks(TrimSpace(line))));
    if word == "input" || word == "input format" then Some(InputHeading)
    else if word == "output" || word == "output format" then Some(OutputHeading)
    else None
  }

  /** `(?i)^source\s*:` on the trimmed line; the long s folds to an s. */
  predicate IsAttribution(line: string) {
    var t := TrimSpace(line);
    && |t| > 6
    && (Lower(t[..6]) == "source" || (t[0] == '\U{017F}' && Lower(t[1..6]) == "ource"))
    && SkipAscii(t[6..]) != "" && SkipAscii(t[6..])[0] == ':'
  }

  // ---- The splitter ----

  datatype Why = MultipleInput | MultipleOutput | NoHeadings | InputAfterOutput | EmptyPart

  datatype SplitResult = Parts(description: string, input: string, output: string) | Refused(why: Why)

  /** What every line is. */
  function Kinds(lines: seq<string>): (r: seq<Option<Heading>>)
    ensures |r| == |lines|
    ensures forall k :: 0 <= k < |lines| ==> r[k] == HeadingOf(lines[k])
  {
    seq(|lines|, k requires 0 <= k < |lines| => HeadingOf(lines[k]))
  }

  /** All headings, with their positions. */
  function Marks(kinds: seq<Option<Heading>>): (r: seq<(nat, Heading)>)
    ensures forall k :: 0 <= k < |r| ==> r[k].0 < |kinds| && kinds[r[k].0] == Some(r[k].1)
    ensures forall k, l :: 0 <= k < l < |r| ==> r[k].0 < r[l].0
  {
    if kinds == [] then []
    else
      var n := |kinds| - 1;
      Marks(kinds[..n]) + if kinds[n].Some? then [(n, kinds[n].value)] else []
  }

  function Multiple(h: Heading): Why {
    if h.InputHeading? then MultipleInput else MultipleOutput
  }

  function TrimSection(lines: seq<string>): string {
    TrimSpace(Join(lines))
  }

  /** Which lines are attributions. */
  function Credits(lines: seq<string>): (r: seq<bool>)
    ensures |r| == |lines|
    ensures forall k :: 0 <= k < |lines| ==> r[k] == IsAttribution(lines[k])
  {
    seq(|lines|, k requires 0 <= k < |lines| => IsAttribution(lines[k]))
  }

  /** The position of the first true element, or the length. */
  function FirstTrue(flags: seq<bool>): (k: nat)
    ensures k <= |flags|
    ensures k < |flags| ==> flags[k]
    ensures forall i :: 0 <= i < k ==> !flags[i]
  {
    if flags == [] || flags[0] then 0 else 1 + FirstTrue(flags[1..])
  }

  function FirstAttribution(lines: seq<string>): (k: nat)
    ensures k <= |lines|
  {
    FirstTrue(Credits(lines))
  }

  lemma FirstTrueIs(flags: seq<bool>, k: nat)
    requires k <= |flags| && (k < |flags| ==> flags[k]) && forall i :: 0 <= i < k ==> !flags[i]
    ensures FirstTrue(flags) == k
  {}

  method SplitTrailingAttribution(lines: seq<string>) returns (output: string, attribution: string)
    ensures output == TrimSection(lines[..FirstAttribution(lines)])
    ensures attribution ==
            if FirstAttribution(lines) < |lines| then TrimSection(lines[FirstAttribution(lines)..]) else ""
  {
    hide IsAttribution, TrimSection, FirstTrue;
    for index := 0 to |lines|
      invariant forall i :: 0 <= i < index ==> !Credits(lines)[i]
    {
      if IsAttribution(lines[index]) {
        FirstTrueIs(Credits(lines), index);
        return TrimSection(lines[..index]), TrimSection(lines[index..]);
      }
    }
    FirstTrueIs(Credits(lines), |lines|);
    assert lines[..|lines|] == lines;
    return TrimSection(lines), "";
  }

  /** joinSections for two parts: the trimmed non-empty ones, a blank line between them. */
  function JoinSections(a: string, b: string): string {
    var x, y := TrimSpace(a), TrimSpace(b);
    if x == "" then y else if y == "" then x else x + "\n\n" + y
  }

  /** The parts for headings at i and j. */
  function PartsAt(lines: seq<string>, i: nat, j: nat): SplitResult
    requires i < j < |lines|
  {
    var tail := lines[j + 1..];
    var k := FirstAttribution(tail);
    var leading, input, output := TrimSection(lines[..i]), TrimSection(lines[i + 1..j]), TrimSection(tail[..k]);
    var attribution := if k < |tail| then TrimSection(tail[k..]) else "";
    var description := if attribution != "" then JoinSections(leading, attribution) else leading;
    if description == "" || input == "" || output == "" then Refused(EmptyPart) else Parts(description, input, output)
  }

  /** What becomes of the lines, by their headings: a repeated heading is refused as soon as it is met. */
  function SplitLines(lines: seq<string>): SplitResult {
    var marks := Marks(Kinds(lines));
    if |marks| >= 2 && marks[0].1 == marks[1].1 then Refused(Multiple(marks[0].1))
    else if |marks| >= 3 then Refused(Multiple(marks[2].1))
    else if |marks| < 2 then Refused(NoHeadings)
    else if marks[0].1.OutputHeading? then Refused(InputAfterOutput)
    else PartsAt(lines, marks[0].0, marks[1].0)
  }

  function LegacyLines(description: string): seq<string> {
    Split(ReplaceCRLF(description))
  }

  function SplitLegacy(description: string): SplitResult {
    SplitLines(LegacyLines(description))
  }

  /** The headings met so far, as the scan's two indices record them. */
  predicate Scanned(marks: seq<(nat, Heading)>, inputIndex: int, outputIndex: int) {
    && |marks| == (if inputIndex >= 0 then 1 else 0) + (if outputIndex >= 0 then 1 else 0)
    && (|marks| == 2 ==> marks[0].1 != marks[1].1)
    && (forall k :: 0 <= k < |marks| ==> marks[k].0 == if marks[k].1.InputHeading? then inputIndex else outputIndex)
    && -1 <= inputIndex && -1 <= outputIndex
  }

  /** Headings only accumulate: a scan may judge by a prefix. */
  lemma {:induction false} MarksPrefix(kinds: seq<Option<Heading>>, n: nat)
    requires n <= |kinds|
    ensures Marks(kinds[..n]) <= Marks(kinds)
  {
    if n == |kinds| {
      assert kinds[..n] == kinds;
    } else {
      var init := kinds[..|kinds| - 1];
      MarksPrefix(init, n);
      assert init[..n] == kinds[..n];
    }
  }

  lemma MarksNext(kinds: seq<Option<Heading>>, n: nat)
    requires n < |kinds|
    ensures Marks(kinds[..n + 1]) == Marks(kinds[..n]) + if kinds[n].Some? then [(n, kinds[n].value)] else []
  {
    assert kinds[..n + 1][..n] == kinds[..n];
  }

  /** A third heading, or a second of the same kind, settles the answer. */
  lemma RepeatRefused(lines: seq<string>, n: nat, h: Heading, inputIndex: int, outputIndex: int)
    requires n < |lines| && HeadingOf(lines[n]) == Some(h)
    requires Scanned(Marks(Kinds(lines)[..n]), inputIndex, outputIndex)
    requires (if h.InputHeading? then inputIndex else outputIndex) >= 0
    ensures SplitLines(lines) == Refused(if h.InputHeading? then MultipleInput else MultipleOutput)
  {
    hide HeadingOf, Marks, PartsAt;
    var kinds := Kinds(lines);
    var marks := Marks(kinds[..n]);
    MarksNext(kinds, n);
    assert Marks(kinds[..n + 1]) == marks + [(n, h)];
    MarksPrefix(kinds, n + 1);
    assert forall k :: 0 <= k < |marks| ==> Marks(kinds)[k] == marks[k];
    assert Marks(kinds)[|marks|] == (n, h);
  }

  lemma ScanStarts(kinds: seq<Option<Heading>>)
    ensures Scanned(Marks(kinds[..0]), -1, -1)
  {}

  /** One more line of the scan. */
  lemma ScanNext(kinds: seq<Option<Heading>>, n: nat, inputIndex: int, outputIndex: int)
    requires n < |kinds| && Scanned(Marks(kinds[..n]), inputIndex, outputIndex)
    ensures kinds[n] == None ==> Scanned(Marks(kinds[..n + 1]), inputIndex, outputIndex)
    ensures kinds[n] == Some(InputHeading) && inputIndex < 0 ==> Scanned(Marks(kinds[..n + 1]), n, outputIndex)
    ensures kinds[n] == Some(OutputHeading) && outputIndex < 0 ==> Scanned(Marks(kinds[..n + 1]), inputIndex, n)
  {
    hide Marks, Scanned;
    MarksNext(kinds, n);
    assert Marks(kinds[..n]) + [] == Marks(kinds[..n]);
    if kinds[n].Some? {
      ScannedMore(Marks(kinds[..n]), n, kinds[n].value, inputIndex, outputIndex);
    }
  }

  lemma ScannedMore(marks: seq<(nat, Heading)>, n: nat, h: Heading, inputIndex: int, outputIndex: int)
    requires Scanned(marks, inputIndex, outputIndex)
    ensures h.InputHeading? && inputIndex < 0 ==> Scanned(marks + [(n, h)], n, outputIndex)
    ensures h.OutputHeading? && outputIndex < 0 ==> Scanned(marks + [(n, h)], inputIndex, n)
  {}

  /** The end of the scan. */
  lemma ScanEnds(lines: seq<string>, inputIndex: int, outputIndex: int)
    requires Scanned(Marks(Kinds(lines)[..|lines|]), inputIndex, outputIndex)
    requires inputIndex < |lines| && outputIndex < |lines|
    ensures SplitLines(lines) ==
            if inputIndex < 0 || outputIndex < 0 then Refused(NoHeadings)
            else if inputIndex >= outputIndex then Refused(InputAfterOutput)
            else PartsAt(lines, inputIndex, outputIndex)
  {
    hide HeadingOf, Marks, PartsAt;
    assert Kinds(lines)[..|lines|] == Kinds(lines);
  }

  method SplitLegacyDescription(description: string) returns (r: SplitResult)
    ensures r == SplitLegacy(description)
  {
    hide HeadingOf, Marks, Scanned, SplitLines, PartsAt, Split, ReplaceCRLF;
    var lines := Split(ReplaceCRLF(description));
    ghost var kinds := Kinds(lines);
    var inputIndex, outputIndex := -1, -1;
    ScanStarts(kinds);
    for index := 0 to |lines|
      invariant Scanned(Marks(kinds[..index]), inputIndex, outputIndex)
      invariant -1 <= inputIndex < index && -1 <= outputIndex < index
    {
      ScanNext(kinds, index, inputIndex, outputIndex);
      match HeadingOf(lines[index]) {
        case None =>
        case Some(InputHeading) =>
          if inputIndex >= 0 {
            RepeatRefused(lines, index, InputHeading, inputIndex, outputIndex);
            return Refused(MultipleInput);
          }
          inputIndex := index;
        case Some(OutputHeading) =>
          if outputIndex >= 0 {
            RepeatRefused(lines, index, OutputHeading, inputIndex, outputIndex);
            return Refused(MultipleOutput);
          }
          outputIndex := index;
      }
    }
    ScanEnds(lines, inputIndex, outputIndex);
    if inputIndex < 0 || outputIndex < 0 {
      return Refused(NoHeadings);
    }
    if inputIndex >= outputIndex {
      return Refused(InputAfterOutput);
    }
    r := AssembleParts(lines, inputIndex, outputIndex);
  }

  /** The second half of the splitter: the sections around the two headings. */
  method AssembleParts(lines: seq<string>, inputIndex: nat, outputIndex: nat) returns (r: SplitResult)
    requires inputIndex < outputIndex < |lines|
    ensures r == PartsAt(lines, inputIndex, outputIndex)
  {
    hide TrimSection, JoinSections, FirstAttribution;
    var leading := TrimSection(lines[..inputIndex]);
    var input := TrimSection(lines[inputIndex + 1..outputIndex]);
    var output, attribution := SplitTrailingAttribution(lines[outputIndex + 1..]);
    if attribution != "" {
      leading := JoinSections(leading, attribution);
    }
    if leading == "" || input == "" || output == "" {
      return Refused(EmptyPart);
    }
    return Parts(leading, input, output);
  }
}
