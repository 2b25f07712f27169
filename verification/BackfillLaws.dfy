/** What the splitter keeps and when it succeeds. */
module BackfillLaws {
  import opened Verdicts
  import opened Lines
  import opened GoText
  import opened FormatBackfill

  // ---- When a split succeeds ----

  /** Exactly one Input and one Output heading, in this order. */
  predicate OnlyHeadings(lines: seq<string>, i: nat, j: nat) {
    && i < j < |lines|
    && HeadingOf(lines[i]) == Some(InputHeading) && HeadingOf(lines[j]) == Some(OutputHeading)
    && forall k :: 0 <= k < |lines| && k != i && k != j ==> HeadingOf(lines[k]) == None
  }

  /** Some character of the section is visible. */
  predicate Visible(section: seq<string>) {
    !AllSpace(Join(section))
  }

  /** The text behind the Output heading up to the first attribution, and the text from there on. */
  function OutputSection(lines: seq<string>, j: nat): seq<string>
    requires j < |lines|
  {
    lines[j + 1..][..FirstAttribution(lines[j + 1..])]
  }

  function CreditSection(lines: seq<string>, j: nat): seq<string>
    requires j < |lines|
  {
    lines[j + 1..][FirstAttribution(lines[j + 1..])..]
  }

  /** The three parts are non-blank; an attribution alone makes a description. */
  predicate PartsVisible(lines: seq<string>, i: nat, j: nat)
    requires i < j < |lines|
  {
    && (Visible(lines[..i]) || CreditSection(lines, j) != [])
    && Visible(lines[i + 1..j])
    && Visible(OutputSection(lines, j))
  }

  lemma {:induction false} MarksComplete(kinds: seq<Option<Heading>>, k: nat)
    requires k < |kinds| && kinds[k].Some?
    ensures (k, kinds[k].value) in Marks(kinds)
  {
    var n := |kinds| - 1;
    if k < n {
      MarksComplete(kinds[..n], k);
    }
  }

  lemma OnlyHeadingsMark(lines: seq<string>, i: nat, j: nat)
    requires OnlyHeadings(lines, i, j)
    ensures Marks(Kinds(lines)) == [(i, InputHeading), (j, OutputHeading)]
  {
    hide HeadingOf, Marks;
    var kinds := Kinds(lines);
    var marks := Marks(kinds);
    MarksComplete(kinds, i);
    MarksComplete(kinds, j);
    forall x | 0 <= x < |marks| ensures marks[x].0 == i || marks[x].0 == j {
      assert kinds[marks[x].0].Some?;
    }
    TwoMarks(marks, i, j);
  }

  lemma TwoMarksOnly(lines: seq<string>, i: nat, j: nat)
    requires Marks(Kinds(lines)) == [(i, InputHeading), (j, OutputHeading)]
    ensures OnlyHeadings(lines, i, j)
  {
    hide HeadingOf, Marks;
    var kinds := Kinds(lines);
    var marks := Marks(kinds);
    forall k | 0 <= k < |kinds| && kinds[k].Some? ensures k == i || k == j {
      MarksComplete(kinds, k);
    }
    assert kinds[marks[0].0] == Some(InputHeading) && kinds[marks[1].0] == Some(OutputHeading);
    assert marks[0].0 < marks[1].0;
  }

  lemma FirstThree(marks: seq<(nat, Heading)>)
    requires |marks| > 2 && forall x, y :: 0 <= x < y < |marks| ==> marks[x].0 < marks[y].0
    ensures marks[0].0 < marks[1].0 < marks[2].0
  {}

  lemma TwoMarks(marks: seq<(nat, Heading)>, i: nat, j: nat)
    requires i < j && (i, InputHeading) in marks && (j, OutputHeading) in marks
    requires forall x, y :: 0 <= x < y < |marks| ==> marks[x].0 < marks[y].0
    requires forall x :: 0 <= x < |marks| ==> marks[x].0 == i || marks[x].0 == j
    ensures marks == [(i, InputHeading), (j, OutputHeading)]
  {
    if |marks| > 2 {
      FirstThree(marks);
      assert false;
    }
    assert |marks| == 2;
  }

  /** A section that starts with an attribution is visible. */
  lemma CreditVisible(section: seq<string>)
    requires section != [] && IsAttribution(section[0])
    ensures TrimSection(section) != ""
  {
    hide TrimSpace, Lower, SkipAscii;
    TrimmedVisible(section[0]);
    TrimmedVisible(Join(section));
    var c :| 0 <= c < |section[0]| && !IsSpace(section[0][c]);
    assert Join(section)[c] == section[0][c];
  }

  lemma PartsAtSucceeds(lines: seq<string>, i: nat, j: nat)
    requires i < j < |lines|
    ensures PartsAt(lines, i, j).Parts? <==> PartsVisible(lines, i, j)
  {
    hide TrimSpace, IsAttribution, Join;
    var tail := lines[j + 1..];
    var k := FirstAttribution(tail);
    TrimmedVisible(Join(lines[..i]));
    TrimmedVisible(Join(lines[i + 1..j]));
    TrimmedVisible(Join(tail[..k]));
    if k < |tail| {
      CreditVisible(tail[k..]);
      TrimSpaceTrims(Join(lines[..i]));
      TrimSpaceTrims(Join(tail[k..]));
      SectionsJoined(TrimSection(lines[..i]), TrimSection(tail[k..]));
    }
  }

  lemma SectionsJoined(a: string, b: string)
    requires Trimmed(a) && Trimmed(b) && b != ""
    ensures JoinSections(a, b) == if a == "" then b else a + "\n\n" + b
  {
    TrimSpaceTrims(a);
    TrimSpaceTrims(b);
  }

  /** A legacy statement splits exactly when it has one Input and one Output heading, in that order,
      and its three parts are not blank. */
  lemma SplitsExactly(description: string)
    ensures
      var lines := LegacyLines(description);
      SplitLegacy(description).Parts? <==>
        exists i: nat, j: nat :: i < j < |lines| && OnlyHeadings(lines, i, j) && PartsVisible(lines, i, j)
  {
    hide HeadingOf, Marks, PartsAt, PartsVisible, Split, ReplaceCRLF;
    var lines := LegacyLines(description);
    if SplitLegacy(description).Parts? {
      var i, j := SplitHeadings(description);
      PartsAtSucceeds(lines, i, j);
    }
    forall i: nat, j: nat | i < j < |lines| && OnlyHeadings(lines, i, j) && PartsVisible(lines, i, j)
      ensures SplitLegacy(description).Parts?
    {
      OnlyHeadingsMark(lines, i, j);
      PartsAtSucceeds(lines, i, j);
    }
  }

  // ---- Why a split is refused ----

  /** How many lines are headings of a kind. */
  function HeadCount(lines: seq<string>, h: Heading): nat {
    if lines == [] then 0
    else
      var n := |lines| - 1;
      HeadCount(lines[..n], h) + if HeadingOf(lines[n]) == Some(h) then 1 else 0
  }

  function Other(h: Heading): Heading {
    if h.InputHeading? then OutputHeading else InputHeading
  }

  /** Line n is the first heading that repeats an earlier one. */
  predicate FirstRepeat(lines: seq<string>, n: nat, h: Heading) {
    && n < |lines| && HeadingOf(lines[n]) == Some(h)
    && HeadCount(lines[..n], h) == 1 && HeadCount(lines[..n], Other(h)) <= 1
  }

  lemma {:induction false} RepeatExists(lines: seq<string>, h: Heading) returns (n: nat, k: Heading)
    requires HeadCount(lines, h) >= 2
    ensures FirstRepeat(lines, n, k)
    decreases |lines|
  {
    hide HeadingOf;
    var init := lines[..|lines| - 1];
    if HeadCount(init, InputHeading) >= 2 || HeadCount(init, OutputHeading) >= 2 {
      n, k := RepeatExists(init, if HeadCount(init, InputHeading) >= 2 then InputHeading else OutputHeading);
      assert init[..n] == lines[..n];
    } else {
      n, k := |lines| - 1, h;
    }
  }

  lemma {:induction false} CountFinds(lines: seq<string>, h: Heading) returns (i: nat)
    requires HeadCount(lines, h) >= 1
    ensures i < |lines| && HeadingOf(lines[i]) == Some(h)
  {
    var n := |lines| - 1;
    if HeadingOf(lines[n]) == Some(h) {
      i := n;
    } else {
      i := CountFinds(lines[..n], h);
    }
  }

  lemma {:induction false} CountedOnce(lines: seq<string>, h: Heading, i: nat, k: nat)
    requires i < k < |lines| && HeadingOf(lines[i]) == Some(h) && HeadingOf(lines[k]) == Some(h)
    ensures HeadCount(lines, h) >= 2
    decreases |lines|
  {
    hide HeadingOf;
    var n := |lines| - 1;
    if k < n {
      CountedOnce(lines[..n], h, i, k);
    } else {
      CountedAtLeast(lines[..n], h, i);
    }
  }

  lemma {:induction false} CountedAtLeast(lines: seq<string>, h: Heading, i: nat)
    requires i < |lines| && HeadingOf(lines[i]) == Some(h)
    ensures HeadCount(lines, h) >= 1
    decreases |lines|
  {
    hide HeadingOf;
    if i < |lines| - 1 {
      CountedAtLeast(lines[..|lines| - 1], h, i);
    }
  }

  /** How many marks are of a kind. */
  function KindCount(marks: seq<(nat, Heading)>, h: Heading): nat {
    if marks == [] then 0
    else KindCount(marks[..|marks| - 1], h) + if marks[|marks| - 1].1 == h then 1 else 0
  }

  lemma {:induction false} CountsAgree(lines: seq<string>, h: Heading)
    ensures HeadCount(lines, h) == KindCount(Marks(Kinds(lines)), h)
  {
    hide HeadingOf, Marks, KindCount;
    var kinds := Kinds(lines);
    if lines == [] {
      NoMarksNoCount(kinds, h);
    } else {
      var n := |lines| - 1;
      CountsAgree(lines[..n], h);
      assert kinds[..n] == Kinds(lines[..n]) && kinds[..n + 1] == kinds;
      MarksNext(kinds, n);
      if HeadingOf(lines[n]).Some? {
        KindCountNext(Marks(kinds[..n]), (n, HeadingOf(lines[n]).value), h);
      } else {
        assert Marks(kinds[..n]) + [] == Marks(kinds[..n]);
      }
    }
  }

  lemma NoMarksNoCount(kinds: seq<Option<Heading>>, h: Heading)
    requires kinds == []
    ensures KindCount(Marks(kinds), h) == 0
  {}

  lemma KindCountNext(marks: seq<(nat, Heading)>, mark: (nat, Heading), h: Heading)
    ensures KindCount(marks + [mark], h) == KindCount(marks, h) + if mark.1 == h then 1 else 0
  {
    assert (marks + [mark])[..|marks|] == marks;
  }

  lemma {:induction false} KindsSum(marks: seq<(nat, Heading)>)
    ensures KindCount(marks, InputHeading) + KindCount(marks, OutputHeading) == |marks|
  {
    if marks != [] {
      KindsSum(marks[..|marks| - 1]);
    }
  }

  /** Marks with at most one of each kind are what two indices can record. */
  lemma CountsScanned(marks: seq<(nat, Heading)>) returns (inputIndex: int, outputIndex: int)
    requires KindCount(marks, InputHeading) <= 1 && KindCount(marks, OutputHeading) <= 1
    ensures Scanned(marks, inputIndex, outputIndex)
    ensures inputIndex >= 0 <==> KindCount(marks, InputHeading) == 1
    ensures outputIndex >= 0 <==> KindCount(marks, OutputHeading) == 1
  {
    KindsSum(marks);
    inputIndex, outputIndex := -1, -1;
    if marks != [] {
      var last := marks[|marks| - 1];
      KindsSum(marks[..|marks| - 1]);
      if last.1.InputHeading? { inputIndex := last.0; } else { outputIndex := last.0; }
      if |marks| == 2 {
        var first := marks[0];
        assert marks[..1] == [first] && KindCount([first], first.1) == 1 + KindCount([], first.1);
        if first.1.InputHeading? { inputIndex := first.0; } else { outputIndex := first.0; }
      }
    }
  }

  lemma RepeatSettles(lines: seq<string>, n: nat, h: Heading)
    requires FirstRepeat(lines, n, h)
    ensures SplitLines(lines) == Refused(if h.InputHeading? then MultipleInput else MultipleOutput)
  {
    hide HeadingOf, Marks, SplitLines, KindCount, HeadCount, Scanned;
    CountsAgree(lines[..n], InputHeading);
    CountsAgree(lines[..n], OutputHeading);
    assert Kinds(lines[..n]) == Kinds(lines)[..n];
    var inputIndex, outputIndex := CountsScanned(Marks(Kinds(lines)[..n]));
    RepeatRefused(lines, n, h, inputIndex, outputIndex);
  }

  lemma FewHeadingsSettle(lines: seq<string>)
    requires HeadCount(lines, InputHeading) + HeadCount(lines, OutputHeading) <= 1
    ensures SplitLines(lines) == Refused(NoHeadings)
  {
    hide HeadingOf, Marks, PartsAt, HeadCount, KindCount;
    CountsAgree(lines, InputHeading);
    CountsAgree(lines, OutputHeading);
    KindsSum(Marks(Kinds(lines)));
  }

  lemma InvertedSettles(lines: seq<string>, i: nat, j: nat)
    requires HeadCount(lines, InputHeading) == 1 && HeadCount(lines, OutputHeading) == 1
    requires i < j < |lines| && HeadingOf(lines[i]) == Some(OutputHeading) && HeadingOf(lines[j]) == Some(InputHeading)
    ensures SplitLines(lines) == Refused(InputAfterOutput)
  {
    hide HeadingOf, Marks, PartsAt, HeadCount, KindCount;
    var marks := Marks(Kinds(lines));
    CountsAgree(lines, InputHeading);
    CountsAgree(lines, OutputHeading);
    KindsSum(marks);
    MarksComplete(Kinds(lines), i);
    MarksComplete(Kinds(lines), j);
    assert (i, OutputHeading) in marks && (j, InputHeading) in marks;
  }

  lemma InOrderSettles(lines: seq<string>, i: nat, j: nat)
    requires OnlyHeadings(lines, i, j)
    ensures
      if PartsVisible(lines, i, j) then SplitLines(lines).Parts? else SplitLines(lines) == Refused(EmptyPart)
  {
    hide HeadingOf, Marks, PartsVisible, FirstAttribution, TrimSection, JoinSections;
    OnlyHeadingsMark(lines, i, j);
    PartsAtSucceeds(lines, i, j);
  }

  /** One heading of each kind: they are the only headings. */
  lemma OneOfEach(lines: seq<string>) returns (i: nat, j: nat)
    requires HeadCount(lines, InputHeading) == 1 && HeadCount(lines, OutputHeading) == 1
    ensures i < |lines| && j < |lines| && i != j
    ensures HeadingOf(lines[i]) == Some(InputHeading) && HeadingOf(lines[j]) == Some(OutputHeading)
    ensures i < j ==> OnlyHeadings(lines, i, j)
  {
    hide HeadingOf, HeadCount;
    i := CountFinds(lines, InputHeading);
    j := CountFinds(lines, OutputHeading);
    forall k | 0 <= k < |lines| && k != i && k != j ensures HeadingOf(lines[k]) == None {
      match HeadingOf(lines[k])
      case None =>
      case Some(InputHeading) => CountedOnce(lines, InputHeading, if k < i then k else i, if k < i then i else k);
      case Some(OutputHeading) => CountedOnce(lines, OutputHeading, if k < j then k else j, if k < j then j else k);
    }
  }

  /** Output comes before Input, each once. */
  ghost predicate Inverted(lines: seq<string>) {
    && HeadCount(lines, InputHeading) == 1 && HeadCount(lines, OutputHeading) == 1
    && exists i: nat, j: nat :: i < j < |lines| && HeadingOf(lines[i]) == Some(OutputHeading) &&
                               HeadingOf(lines[j]) == Some(InputHeading)
  }

  ghost predicate Incomplete(lines: seq<string>) {
    exists i: nat, j: nat :: i < j < |lines| && OnlyHeadings(lines, i, j) && !PartsVisible(lines, i, j)
  }

  ghost predicate Complete(lines: seq<string>) {
    exists i: nat, j: nat :: i < j < |lines| && OnlyHeadings(lines, i, j) && PartsVisible(lines, i, j)
  }

  ghost predicate Repeats(lines: seq<string>, h: Heading) {
    exists n: nat :: FirstRepeat(lines, n, h)
  }

  predicate TooFew(lines: seq<string>) {
    HeadCount(lines, InputHeading) + HeadCount(lines, OutputHeading) <= 1
  }

  /** Each text falls under one of six descriptions, and that settles what becomes of it. */
  lemma EachSettled(lines: seq<string>)
    ensures Repeats(lines, InputHeading) ==> SplitLines(lines) == Refused(MultipleInput)
    ensures Repeats(lines, OutputHeading) ==> SplitLines(lines) == Refused(MultipleOutput)
    ensures TooFew(lines) ==> SplitLines(lines) == Refused(NoHeadings)
    ensures Inverted(lines) ==> SplitLines(lines) == Refused(InputAfterOutput)
    ensures Incomplete(lines) ==> SplitLines(lines) == Refused(EmptyPart)
    ensures Complete(lines) ==> SplitLines(lines).Parts?
  {
    hide HeadingOf, SplitLines, HeadCount, FirstRepeat, OnlyHeadings, PartsVisible;
    forall n: nat, h | FirstRepeat(lines, n, h)
      ensures SplitLines(lines) == Refused(if h.InputHeading? then MultipleInput else MultipleOutput)
    {
      RepeatSettles(lines, n, h);
    }
    if TooFew(lines) {
      FewHeadingsSettle(lines);
    }
    if Inverted(lines) {
      var i: nat, j: nat :| i < j < |lines| && HeadingOf(lines[i]) == Some(OutputHeading) &&
                            HeadingOf(lines[j]) == Some(InputHeading);
      InvertedSettles(lines, i, j);
    }
    forall i: nat, j: nat | i < j < |lines| && OnlyHeadings(lines, i, j)
      ensures if PartsVisible(lines, i, j) then SplitLines(lines).Parts? else SplitLines(lines) == Refused(EmptyPart)
    {
      InOrderSettles(lines, i, j);
    }
  }

  lemma SixCases(lines: seq<string>)
    ensures Repeats(lines, InputHeading) || Repeats(lines, OutputHeading) || TooFew(lines) || Inverted(lines) ||
            Incomplete(lines) || Complete(lines)
  {
    hide HeadingOf, HeadCount, FirstRepeat, PartsVisible;
    var ins, outs := HeadCount(lines, InputHeading), HeadCount(lines, OutputHeading);
    if ins >= 2 || outs >= 2 {
      var n, k := RepeatExists(lines, if ins >= 2 then InputHeading else OutputHeading);
      assert Repeats(lines, k) && (k == InputHeading || k == OutputHeading);
    } else if ins + outs == 2 {
      var i, j := OneOfEach(lines);
      if i < j {
        assert OnlyHeadings(lines, i, j);
      }
    }
  }

  /** Every refusal and its reason, exactly: the first repeated heading decides, then a missing one, then their order,
      then an empty part. */
  lemma RefusedExactly(description: string)
    ensures
      var lines, r := LegacyLines(description), SplitLegacy(description);
      && (r == Refused(MultipleInput) <==> Repeats(lines, InputHeading))
      && (r == Refused(MultipleOutput) <==> Repeats(lines, OutputHeading))
      && (r == Refused(NoHeadings) <==> TooFew(lines))
      && (r == Refused(InputAfterOutput) <==> Inverted(lines))
      && (r == Refused(EmptyPart) <==> Incomplete(lines))
  {
    hide LegacyLines, SplitLines, Repeats, TooFew, Inverted, Incomplete, Complete;
    EachSettled(LegacyLines(description));
    SixCases(LegacyLines(description));
  }

  const SMALLEST := "d\nInput\ni\nOutput\no"

  lemma {:induction false} NothingToReplace(s: string)
    requires '\r' !in s
    ensures ReplaceCRLF(s) == s
  {
    if s != "" {
      NothingToReplace(s[1..]);
    }
  }

  lemma SmallestLines()
    ensures LegacyLines(SMALLEST) == ["d", "Input", "i", "Output", "o"]
  {
    hide Split, ReplaceCRLF;
    var a, b, c, d, e := "d", "Input", "i", "Output", "o";
    assert SMALLEST == a + "\n" + (b + "\n" + (c + "\n" + (d + "\n" + e)));
    NothingToReplace(SMALLEST);
    SplitAtBreak(a, b + "\n" + (c + "\n" + (d + "\n" + e)));
    SplitAtBreak(b, c + "\n" + (d + "\n" + e));
    SplitAtBreak(c, d + "\n" + e);
    SplitAtBreak(d, e);
    SplitOneLine(a);
    SplitOneLine(b);
    SplitOneLine(c);
    SplitOneLine(d);
    SplitOneLine(e);
  }

  /** A line of letters only is read by its letters. */
  lemma PlainWord(s: string)
    requires s != "" && forall k :: 0 <= k < |s| ==> 'A' <= s[k] <= 'z'
    ensures
      var word := Lower(s);
      HeadingOf(s) == if word == "input" || word == "input format" then Some(InputHeading)
                      else if word == "output" || word == "output format" then Some(OutputHeading) else None
  {
    hide Lower, TrimSpace, IsSpace, AsciiSpace;
    LetterIsNoSpace(s[0]);
    LetterIsNoSpace(s[|s| - 1]);
    TrimSpaceTrims(s);
    assert Hashes(s) == 0 && DropAscii(s) == s;
  }

  lemma LetterIsNoSpace(c: char)
    requires 'A' <= c <= 'z'
    ensures !IsSpace(c) && !AsciiSpace(c) && c != '#' && c != ':'
  {}

  lemma SmallestHeadings()
    ensures HeadingOf("Input") == Some(InputHeading) && HeadingOf("Output") == Some(OutputHeading)
    ensures HeadingOf("d") == HeadingOf("i") == HeadingOf("o") == None
  {
    hide HeadingOf, Lower;
    var a, b, c, d, e := "d", "Input", "i", "Output", "o";
    PlainWord(a);
    PlainWord(b);
    PlainWord(c);
    PlainWord(d);
    PlainWord(e);
    LowerPointwise(a);
    LowerPointwise(b);
    LowerPointwise(c);
    LowerPointwise(d);
    LowerPointwise(e);
    assert Lower(b) == "input" && Lower(d) == "output";
  }

  /** A statement of one line in each part splits. */
  lemma SmallestSplits()
    ensures SplitLegacy(SMALLEST).Parts?
  {
    hide HeadingOf, SplitLegacy, IsAttribution, LegacyLines, PartsVisible;
    var lines := ["d", "Input", "i", "Output", "o"];
    SmallestLines();
    SmallestHeadings();
    assert OnlyHeadings(lines, 1, 3);
    SmallestVisible(lines);
    SplitsExactly(SMALLEST);
  }

  lemma SmallestVisible(lines: seq<string>)
    requires lines == ["d", "Input", "i", "Output", "o"]
    ensures PartsVisible(lines, 1, 3)
  {
    hide IsAttribution;
    ShortIsNoAttribution(lines[4]);
    assert Join(lines[..1])[0] == 'd' && Join(lines[2..3])[0] == 'i';
    assert lines[4..] == ["o"] && Credits(["o"]) == [false];
    FirstTrueIs([false], 1);
    assert OutputSection(lines, 3) == ["o"];
    assert Join(["o"])[0] == 'o';
  }

  lemma ShortIsNoAttribution(line: string)
    requires |line| <= 6
    ensures !IsAttribution(line)
  {}

  // ---- Conservation ----

  /** The part is the text of the section without white space at its two ends. */
  ghost predicate TextOf(part: string, section: seq<string>) {
    Trimmed(part) && exists left: string, right: string :: Surrounds(left, part, right, Join(section))
  }

  predicate Surrounds(left: string, part: string, right: string, text: string) {
    AllSpace(left) && AllSpace(right) && text == left + part + right
  }

  lemma TrimSectionText(section: seq<string>)
    ensures TextOf(TrimSection(section), section)
  {
    hide TrimSpace, Trimmed, AllSpace;
    var left, right := TrimSpaceParts(Join(section));
    TrimSpaceTrims(Join(section));
    assert Surrounds(left, TrimSection(section), right, Join(section));
  }

  /** On success the lines of the statement are, in order: the leading text, the Input heading, the input text, the
      Output heading, the output text and the attribution; every line is in exactly one place, the parts
      are those sections without white space at their ends, and the attribution moves behind the leading text. */
  lemma NothingLost(description: string)
    ensures SplitLegacy(description).Parts? ==>
              exists i: nat, j: nat :: Conserves(LegacyLines(description), SplitLegacy(description), i, j)
  {
    hide HeadingOf, Marks, PartsAt, IsAttribution, Split, ReplaceCRLF, Conserves;
    if SplitLegacy(description).Parts? {
      var i, j := SplitHeadings(description);
      PartsConserve(LegacyLines(description), i, j);
    }
  }

  /** The two headings of a statement that splits. */
  lemma SplitHeadings(description: string) returns (i: nat, j: nat)
    requires SplitLegacy(description).Parts?
    ensures OnlyHeadings(LegacyLines(description), i, j)
    ensures SplitLegacy(description) == PartsAt(LegacyLines(description), i, j)
  {
    hide HeadingOf, Marks, PartsAt, Split, ReplaceCRLF;
    var marks := Marks(Kinds(LegacyLines(description)));
    i, j := marks[0].0, marks[1].0;
    assert marks == [(i, InputHeading), (j, OutputHeading)];
    TwoMarksOnly(LegacyLines(description), i, j);
  }

  ghost predicate Conserves(lines: seq<string>, r: SplitResult, i: nat, j: nat) {
    && OnlyHeadings(lines, i, j) && r.Parts?
    && var output, credits := OutputSection(lines, j), CreditSection(lines, j);
    && lines == lines[..i] + [lines[i]] + lines[i + 1..j] + [lines[j]] + output + credits
    && (forall k :: 0 <= k < |output| ==> !IsAttribution(output[k]))
    && (credits != [] ==> IsAttribution(credits[0]))
    && TextOf(r.input, lines[i + 1..j])
    && TextOf(r.output, output)
    && exists leading: string, credit: string ::
         && TextOf(leading, lines[..i]) && TextOf(credit, credits)
         && r.description == leading + (if leading != "" && credit != "" then "\n\n" else "") + credit
  }

  lemma SixPieces(lines: seq<string>, i: nat, j: nat)
    requires i < j < |lines|
    ensures lines == lines[..i] + [lines[i]] + lines[i + 1..j] + [lines[j]] +
                     OutputSection(lines, j) + CreditSection(lines, j)
  {
    hide FirstAttribution;
    assert OutputSection(lines, j) + CreditSection(lines, j) == lines[j + 1..];
  }

  lemma DescriptionText(lines: seq<string>, i: nat, j: nat)
    requires i < j < |lines| && PartsAt(lines, i, j).Parts?
    ensures
      var leading, credit := TrimSection(lines[..i]), TrimSection(CreditSection(lines, j));
      PartsAt(lines, i, j).description == leading + (if leading != "" && credit != "" then "\n\n" else "") + credit
  {
    hide TrimSpace, IsAttribution, Join;
    var tail := lines[j + 1..];
    var k := FirstAttribution(tail);
    var leading, credit := TrimSection(lines[..i]), TrimSection(tail[k..]);
    if k < |tail| {
      CreditVisible(tail[k..]);
      TrimSpaceTrims(Join(lines[..i]));
      TrimSpaceTrims(Join(tail[k..]));
      SectionsJoined(leading, credit);
    } else {
      NothingToTrim();
    }
  }

  lemma NothingToTrim()
    ensures TrimSection([]) == ""
  {}

  lemma PartsConserve(lines: seq<string>, i: nat, j: nat)
    requires OnlyHeadings(lines, i, j) && PartsAt(lines, i, j).Parts?
    ensures Conserves(lines, PartsAt(lines, i, j), i, j)
  {
    hide IsAttribution, TextOf, TrimSection, JoinSections, HeadingOf;
    SixPieces(lines, i, j);
    TrimSectionText(lines[..i]);
    TrimSectionText(lines[i + 1..j]);
    TrimSectionText(OutputSection(lines, j));
    TrimSectionText(CreditSection(lines, j));
    DescriptionText(lines, i, j);
  }

  // ---- No part contains a heading ----

  predicate NoHeadingIn(lines: seq<string>) {
    forall k :: 0 <= k < |lines| ==> HeadingOf(lines[k]) == None
  }

  lemma {:induction false} TrimIgnoresLeft(c: char, l: string)
    requires IsSpace(c)
    ensures TrimSpace([c] + l) == TrimSpace(l)
  {
    assert ([c] + l)[1..] == l;
  }

  lemma {:induction false} TrimIgnoresRight(l: string, c: char)
    requires IsSpace(c)
    ensures TrimSpace(l + [c]) == TrimSpace(l)
  {
    if l == "" {
      assert l + [c] == [c] && [c][1..] == "";
    } else if IsSpace(l[0]) {
      assert (l + [c])[1..] == l[1..] + [c];
      TrimIgnoresRight(l[1..], c);
    } else {
      assert (l + [c])[..|l|] == l;
    }
  }

  lemma HeadingIgnoresSpace(c: char, l: string)
    requires IsSpace(c)
    ensures HeadingOf([c] + l) == HeadingOf(l) && HeadingOf(l + [c]) == HeadingOf(l)
  {
    hide TrimSpace, Lower, WithoutColon, WithoutMarks, IsSpace;
    TrimIgnoresLeft(c, l);
    TrimIgnoresRight(l, c);
  }

  /** White space in front of a text adds no heading and hides none. */
  lemma {:induction false} CutLeft(left: string, y: string)
    requires AllSpace(left) && NoHeadingIn(Split(left + y))
    ensures NoHeadingIn(Split(y))
  {
    hide HeadingOf, IsSpace;
    if left == "" {
      assert left + y == y;
    } else {
      var c, x := left[0], left[1..] + y;
      assert left + y == [c] + x && ([c] + x)[1..] == x;
      HeadingIgnoresSpace(c, Split(x)[0]);
      assert NoHeadingIn(Split(x)) by {
        var whole := Split([c] + x);
        forall k | 0 <= k < |Split(x)| ensures HeadingOf(Split(x)[k]) == None {
          if c == '\n' {
            assert whole[k + 1] == Split(x)[k];
          } else if k > 0 {
            assert whole[k] == Split(x)[k];
          } else {
            assert whole[0] == [c] + Split(x)[0];
          }
        }
      }
      CutLeft(left[1..], y);
    }
  }

  lemma SplitOfChar(c: char)
    ensures Split([c]) == if c == '\n' then ["", ""] else [[c]]
  {
    assert [c][1..] == "";
    if c != '\n' {
      SplitOneLine([c]);
    }
  }

  lemma CutOneRight(y: string, c: char)
    requires IsSpace(c) && NoHeadingIn(Split(y + [c]))
    ensures NoHeadingIn(Split(y))
  {
    hide HeadingOf, IsSpace, Split;
    var ls, n, whole := Split(y), |Split(y)| - 1, Split(y + [c]);
    SplitConcat(y, [c]);
    SplitOfChar(c);
    HeadingIgnoresSpace(c, ls[n]);
    assert ls[n] + "" == ls[n];
    assert whole[n] == if c == '\n' then ls[n] else ls[n] + [c];
    assert HeadingOf(whole[n]) == None;
    forall k | 0 <= k < |ls| ensures HeadingOf(ls[k]) == None {
      assert k < n ==> whole[k] == ls[k];
    }
  }

  lemma {:induction false} CutRight(y: string, right: string)
    requires AllSpace(right) && NoHeadingIn(Split(y + right))
    ensures NoHeadingIn(Split(y))
  {
    hide HeadingOf, IsSpace;
    if right == "" {
      assert y + right == y;
    } else {
      var init, c := right[..|right| - 1], right[|right| - 1];
      assert y + right == (y + init) + [c];
      CutOneRight(y + init, c);
      CutRight(y, init);
    }
  }

  /** The trimmed text of lines without headings has no heading. */
  lemma SectionHasNoHeading(section: seq<string>)
    requires AllLines(section) && NoHeadingIn(section)
    ensures NoHeadingIn(Split(TrimSection(section)))
  {
    hide HeadingOf, TrimSpace, IsSpace;
    var text := Join(section);
    var left, right := TrimSpaceParts(text);
    if section == [] {
      EmptyIsNoHeading();
      assert Split(text) == [""];
    } else {
      SplitJoin(section);
    }
    var y := TrimSpace(text);
    assert left + y + right == left + (y + right);
    CutLeft(left, y + right);
    CutRight(y, right);
  }

  lemma EmptyIsNoHeading()
    ensures HeadingOf("") == None
  {
    hide TrimSpace, Lower, IsSpace;
    var s := "";
    TrimSpaceTrims(s);
    assert WithoutColon(WithoutMarks(s)) == s;
    LowerPointwise(s);
  }

  /** Each line is kept, or loses the carriage return at its end. */
  ghost predicate LosesCR(xs: seq<string>, ys: seq<string>) {
    |xs| == |ys| && forall k :: 0 <= k < |xs| ==> ys[k] == xs[k] || xs[k] == ys[k] + "\r"
  }

  lemma {:induction false} ReplaceLosesCR(y: string)
    ensures LosesCR(Split(y), Split(ReplaceCRLF(y)))
  {
    if y == "" {
    } else if StartsCRLF(y) {
      var z := y[2..];
      ReplaceLosesCR(z);
      assert y[1..][1..] == z;
      assert Split(y) == Push('\r', [""] + Split(z));
      assert ("\n" + ReplaceCRLF(z))[1..] == ReplaceCRLF(z);
    } else {
      ReplaceLosesCR(y[1..]);
      var r := ReplaceCRLF(y[1..]);
      assert ([y[0]] + r)[1..] == r;
      if y[0] != '\n' {
        PushLosesCR(y[0], Split(y[1..]), Split(r));
      }
    }
  }

  lemma PushLosesCR(c: char, xs: seq<string>, ys: seq<string>)
    requires LosesCR(xs, ys) && |xs| >= 1
    ensures LosesCR(Push(c, xs), Push(c, ys))
  {
    assert xs[0] == ys[0] + "\r" ==> [c] + xs[0] == [c] + ys[0] + "\r";
  }

  /** Reading a text with CRLF line ends finds no heading that is not there. */
  lemma ReplaceAddsNoHeading(y: string)
    requires NoHeadingIn(Split(y))
    ensures NoHeadingIn(LegacyLines(y))
  {
    hide HeadingOf, Split, ReplaceCRLF, IsSpace;
    ReplaceLosesCR(y);
    var xs, ys := Split(y), LegacyLines(y);
    CRIsSpace();
    forall k | 0 <= k < |ys| ensures HeadingOf(ys[k]) == None {
      HeadingIgnoresSpace('\r', ys[k]);
    }
  }

  lemma CRIsSpace()
    ensures IsSpace('\r')
  {}

  lemma DescriptionHasNoHeading(leading: string, credit: string)
    requires NoHeadingIn(Split(leading)) && NoHeadingIn(Split(credit))
    ensures NoHeadingIn(Split(leading + "\n\n" + credit))
  {
    hide HeadingOf, Split;
    SplitAtBreak(leading, "\n" + credit);
    SplitAtBreak("", credit);
    assert leading + "\n\n" + credit == leading + "\n" + ("\n" + credit);
    assert "" + "\n" + credit == "\n" + credit;
    EmptyIsNoHeading();
    SplitOneLine("");
  }

  lemma PartsHaveNoHeading(lines: seq<string>, i: nat, j: nat)
    requires AllLines(lines) && OnlyHeadings(lines, i, j) && PartsAt(lines, i, j).Parts?
    ensures
      var r := PartsAt(lines, i, j);
      NoHeadingIn(Split(r.description)) && NoHeadingIn(Split(r.input)) && NoHeadingIn(Split(r.output))
  {
    hide HeadingOf, Split, TrimSection, JoinSections, FirstAttribution;
    var leading, credit := TrimSection(lines[..i]), TrimSection(CreditSection(lines, j));
    SectionHasNoHeading(lines[..i]);
    SectionHasNoHeading(lines[i + 1..j]);
    SectionHasNoHeading(OutputSection(lines, j));
    SectionHasNoHeading(CreditSection(lines, j));
    DescriptionText(lines, i, j);
    if leading != "" && credit != "" {
      DescriptionHasNoHeading(leading, credit);
    } else {
      assert leading + "" + credit == if leading == "" then credit else leading;
    }
  }

  lemma {:induction false} NoMarks(kinds: seq<Option<Heading>>)
    requires forall k :: 0 <= k < |kinds| ==> kinds[k] == None
    ensures Marks(kinds) == []
  {
    if kinds != [] {
      NoMarks(kinds[..|kinds| - 1]);
    }
  }

  lemma NoHeadingRefused(text: string)
    requires NoHeadingIn(LegacyLines(text))
    ensures SplitLegacy(text) == Refused(NoHeadings)
  {
    hide HeadingOf, Marks, Split, ReplaceCRLF;
    NoMarks(Kinds(LegacyLines(text)));
  }

  /** No part of a successful split can be split again: each is refused for lack of headings. */
  lemma PartsNeverSplitAgain(description: string)
    ensures
      var r := SplitLegacy(description);
      r.Parts? ==>
        && SplitLegacy(r.description) == Refused(NoHeadings)
        && SplitLegacy(r.input) == Refused(NoHeadings)
        && SplitLegacy(r.output) == Refused(NoHeadings)
  {
    hide HeadingOf, Marks, PartsAt, Split, ReplaceCRLF, SplitLines;
    var r := SplitLegacy(description);
    if r.Parts? {
      var i, j := SplitHeadings(description);
      PartsHaveNoHeading(LegacyLines(description), i, j);
      NeverSplits(r.description);
      NeverSplits(r.input);
      NeverSplits(r.output);
    }
  }

  lemma NeverSplits(text: string)
    requires NoHeadingIn(Split(text))
    ensures SplitLegacy(text) == Refused(NoHeadings)
  {
    hide *;
    ReplaceAddsNoHeading(text);
    NoHeadingRefused(text);
  }
}
