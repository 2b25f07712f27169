/** Tab and Shift+Tab, over selected lines and at a caret. */
module EditorIndent {
  import opened Verdicts
  import opened Lines
  import opened Arithmetic
  import opened EditorKeys

  /** The selection starts before a line feed at the very start of the text: there the
      line range of the source starts one line too late. */
  predicate AtLeadingBreak(e: Edit) {
    e.start == 0 && e.value != "" && e.value[0] == '\n'
  }

  // ---- The selected line range ----

  /** Where the search for the end of the range begins. */
  function EffectiveEnd(e: Edit): nat
    requires InBounds(e)
  {
    if e.end > e.start && e.value[e.end - 1] == '\n' then e.end - 1 else e.end
  }

  lemma RangeFacts(e: Edit)
    requires InBounds(e)
    ensures RangeStart(e) <= |e.value|
    ensures AtLeadingBreak(e) ==> RangeStart(e) == 1
    ensures !AtLeadingBreak(e) ==>
              && RangeStart(e) <= e.start <= EffectiveEnd(e) <= RangeEnd(e)
              && (RangeStart(e) == 0 || e.value[RangeStart(e) - 1] == '\n')
              && OneLine(e.value[RangeStart(e)..e.start])
  {}

  lemma RangeStartIs(e: Edit, from: nat)
    requires InBounds(e) && e.start >= 1 && from <= e.start
    requires from == 0 || e.value[from - 1] == '\n'
    requires forall k :: from <= k < e.start ==> e.value[k] != '\n'
    ensures RangeStart(e) == from
  {}

  lemma RangeEndIs(e: Edit, to: nat)
    requires InBounds(e) && EffectiveEnd(e) <= to <= |e.value|
    requires to == |e.value| || e.value[to] == '\n'
    requires forall k :: EffectiveEnd(e) <= k < to ==> e.value[k] != '\n'
    ensures RangeEnd(e) == to
  {}

  lemma NoBreakAt(s: string, i: nat)
    requires OneLine(s) && i < |s|
    ensures s[i] != '\n'
  {}

  // ---- Lines of a block ----

  /** Text without a line feed at the start of a block lies within its first line. */
  lemma FirstLineHolds(block: string, k: nat)
    requires k <= |block| && OneLine(block[..k])
    ensures |Split(block)[0]| >= k
  {
    assert block[..k] + block[k..] == block;
    SplitConcat(block[..k], block[k..]);
    SplitOneLine(block[..k]);
  }

  /** What stands before the last line of a joined block. */
  function Lead(init: seq<string>): string {
    if init == [] then "" else Join(init) + "\n"
  }

  lemma LeadAndLast(init: seq<string>, last: string)
    ensures Join(init + [last]) == Lead(init) + last
  {
    if init != [] {
      JoinConcat(init, [last]);
    }
  }

  /** A joined block starts with its first line. */
  lemma FirstAndRest(lines: seq<string>)
    requires |lines| >= 1
    ensures lines[0] <= Join(lines)
  {}

  lemma {:induction false} IndentLength(lines: seq<string>, indent: string)
    ensures |Join(IndentAll(lines, indent))| == |Join(lines)| + |indent| * |lines|
  {
    var more := IndentAll(lines, indent);
    if |lines| >= 2 {
      IndentLength(lines[1..], indent);
      assert more[1..] == IndentAll(lines[1..], indent);
      assert |indent| * |lines| == |indent| + |indent| * |lines[1..]|;
    } else if |lines| == 1 {
      assert more[0] == indent + lines[0];
    }
  }

  lemma IndentKeepsLines(lines: seq<string>, tabSize: nat)
    requires AllLines(lines)
    ensures AllLines(IndentAll(lines, Repeat(tabSize)))
  {}

  /** The leading spaces of an indented line are at least the indent. */
  lemma {:induction false} SpacesOfIndented(indent: string, line: string)
    requires forall k :: 0 <= k < |indent| ==> indent[k] == ' '
    ensures LeadingSpaces(indent + line, |indent|) == |indent|
  {
    if indent != "" {
      assert (indent + line)[1..] == indent[1..] + line;
      SpacesOfIndented(indent[1..], line);
    }
  }

  lemma OutdentUndoesIndent(line: string, tabSize: nat)
    requires tabSize >= 1
    ensures OutdentCount(Repeat(tabSize) + line, tabSize) == tabSize
    ensures (Repeat(tabSize) + line)[tabSize..] == line
  {
    SpacesOfIndented(Repeat(tabSize), line);
  }

  lemma OutdentAllUndoes(lines: seq<string>, tabSize: nat)
    requires tabSize >= 1
    ensures OutdentAll(IndentAll(lines, Repeat(tabSize)), tabSize) == lines
  {
    var more := IndentAll(lines, Repeat(tabSize));
    forall k | 0 <= k < |lines| ensures more[k][OutdentCount(more[k], tabSize)..] == lines[k] {
      OutdentUndoesIndent(lines[k], tabSize);
    }
  }

  lemma {:induction false} RemovedIndented(more: seq<string>, tabSize: nat)
    requires forall k :: 0 <= k < |more| ==> OutdentCount(more[k], tabSize) == tabSize
    ensures Removed(more, tabSize) == tabSize * |more|
  {
    if more != [] {
      RemovedIndented(more[..|more| - 1], tabSize);
      assert tabSize * |more| == tabSize * (|more| - 1) + tabSize;
    }
  }

  // ---- A selection over whole lines ----

  /** A selection from a to b over the lines of a block between a prefix that ends a line and a suffix that
      starts with a line feed: it starts in the first line, and it ends in the last line, or
      right behind the line feed that follows it. */
  predicate Selects(prefix: string, block: string, suffix: string, a: nat, b: nat) {
    && (prefix == "" || prefix[|prefix| - 1] == '\n')
    && (suffix == "" || suffix[0] == '\n')
    && a < b && a <= |block| && OneLine(block[..a])
    && (if b <= |block| then block[b - 1] != '\n' && OneLine(block[b..]) else b == |block| + 1 && suffix != "")
  }

  /** Every selection has that shape, with the source's line range as its block. */
  lemma RangeSelects(e: Edit)
    requires InBounds(e) && e.start < e.end && !AtLeadingBreak(e)
    ensures RangeStart(e) <= e.start && RangeStart(e) <= RangeEnd(e)
    ensures Selects(e.value[..RangeStart(e)], e.value[RangeStart(e)..RangeEnd(e)], e.value[RangeEnd(e)..],
                    e.start - RangeStart(e), e.end - RangeStart(e))
  {
    hide RangeStart, RangeEnd, Selects;
    RangeFacts(e);
    RangeEndFacts(e);
    SelectsSlices(e.value, RangeStart(e), e.start, e.end, RangeEnd(e));
  }

  /** The range ends with the line in which the selection ends, or before the line feed that it ends with. */
  lemma RangeEndFacts(e: Edit)
    requires InBounds(e) && e.start < e.end
    ensures RangeEnd(e) == |e.value| || e.value[RangeEnd(e)] == '\n'
    ensures
      if e.value[e.end - 1] == '\n' then RangeEnd(e) == e.end - 1
      else e.end <= RangeEnd(e) && OneLine(e.value[e.end..RangeEnd(e)])
  {}

  lemma SelectsSlices(v: string, rs: nat, start: nat, end: nat, re: nat)
    requires rs <= start < end <= |v| && start <= re <= |v|
    requires (rs == 0 || v[rs - 1] == '\n') && (re == |v| || v[re] == '\n')
    requires OneLine(v[rs..start])
    requires if v[end - 1] == '\n' then re == end - 1 else end <= re && OneLine(v[end..re])
    ensures Selects(v[..rs], v[rs..re], v[re..], start - rs, end - rs)
  {
    var block := v[rs..re];
    assert block[..start - rs] == v[rs..start];
    if v[end - 1] != '\n' {
      assert block[end - rs..] == v[end..re];
      assert block[end - rs - 1] == v[end - 1];
    }
  }

  /** A text made of a prefix, a block of lines and a suffix, with the selection ends counted from the block. */
  function Whole(prefix: string, lines: seq<string>, suffix: string, a: int, b: int): Edit {
    Edit(prefix + Join(lines) + suffix, |prefix| + a, |prefix| + b)
  }

  /** And a text of that shape has that range. */
  lemma SelectsRange(prefix: string, lines: seq<string>, suffix: string, a: nat, b: nat)
    requires Selects(prefix, Join(lines), suffix, a, b) && a >= 1
    ensures
      var e := Whole(prefix, lines, suffix, a, b);
      InBounds(e) && RangeStart(e) == |prefix| && RangeEnd(e) == |prefix| + |Join(lines)|
  {
    hide Join, RangeStart, RangeEnd;
    SelectsStart(prefix, Join(lines), suffix, a, b);
    SelectsEnd(prefix, Join(lines), suffix, a, b);
  }

  lemma SelectsStart(prefix: string, block: string, suffix: string, a: nat, b: nat)
    requires Selects(prefix, block, suffix, a, b) && a >= 1
    ensures
      var e := Edit(prefix + block + suffix, |prefix| + a, |prefix| + b);
      InBounds(e) && RangeStart(e) == |prefix|
  {
    hide RangeStart;
    var e, p := Edit(prefix + block + suffix, |prefix| + a, |prefix| + b), |prefix|;
    forall k | p <= k < p + a ensures e.value[k] != '\n' {
      assert e.value[k] == block[..a][k - p];
    }
    RangeStartIs(e, p);
  }

  lemma SelectsEnd(prefix: string, block: string, suffix: string, a: nat, b: nat)
    requires Selects(prefix, block, suffix, a, b)
    ensures
      var e := Edit(prefix + block + suffix, |prefix| + a, |prefix| + b);
      InBounds(e) && RangeEnd(e) == |prefix| + |block|
  {
    hide RangeEnd;
    var e, p := Edit(prefix + block + suffix, |prefix| + a, |prefix| + b), |prefix|;
    if b <= |block| {
      assert e.value[e.end - 1] == block[b - 1];
      forall k | e.end <= k < p + |block| ensures e.value[k] != '\n' {
        assert e.value[k] == block[b..][k - e.end];
      }
    } else {
      assert e.value[e.end - 1] == suffix[0];
    }
    RangeEndIs(e, p + |block|);
  }

  /** A selection's start lies in the first line and its end behind the start of the last. */
  lemma SelectionStart(prefix: string, lines: seq<string>, suffix: string, a: nat, b: nat)
    requires |lines| >= 1 && AllLines(lines) && Selects(prefix, Join(lines), suffix, a, b)
    ensures a <= |lines[0]|
  {
    SplitJoin(lines);
    FirstLineHolds(Join(lines), a);
  }

  lemma SelectionEnd(prefix: string, init: seq<string>, last: string, suffix: string, a: nat, b: nat)
    requires Selects(prefix, Join(init + [last]), suffix, a, b)
    ensures |Lead(init)| < b
  {
    var block, from := Join(init + [last]), |Lead(init)|;
    LeadAndLast(init, last);
    if from > b {
      NoBreakAt(block[b..], from - 1 - b);
      assert false;
    }
  }

  /** Behind the same last line two texts agree. */
  lemma TailMoves(short: string, long: string, last: string, b: nat)
    requires |short| < b <= |short + last|
    ensures
      var shift := |long| - |short|;
      (short + last)[b..] == (long + last)[b + shift..] && (short + last)[b - 1] == (long + last)[b - 1 + shift]
  {}

  lemma IndentAllSplit(init: seq<string>, last: string, indent: string)
    ensures IndentAll(init + [last], indent) == IndentAll(init, indent) + [indent + last]
  {}

  /** Indenting keeps the first lines' part of the shape. */
  lemma IndentedStart(lines: seq<string>, a: nat, indent: string)
    requires |lines| >= 1 && AllLines(lines) && OneLine(indent) && a <= |lines[0]|
    ensures a + |indent| <= |Join(IndentAll(lines, indent))|
    ensures OneLine(Join(IndentAll(lines, indent))[..a + |indent|])
  {
    var more := IndentAll(lines, indent);
    FirstAndRest(more);
    assert Join(more)[..a + |indent|] == (indent + lines[0])[..a + |indent|];
  }

  /** Indenting keeps the last line's part of the shape. */
  lemma IndentedEnd(init: seq<string>, last: string, b: nat, indent: string)
    requires |Lead(init)| < b <= |Join(init + [last])|
    ensures
      var block, moved, shift := Join(init + [last]), Join(IndentAll(init + [last], indent)), |indent| * (|init| + 1);
      && b + shift <= |moved|
      && moved[b + shift - 1] == block[b - 1]
      && moved[b + shift..] == block[b..]
  {
    hide Join, IndentAll, Lead;
    var more := IndentAll(init, indent);
    IndentAllSplit(init, last, indent);
    IndentLength(init + [last], indent);
    LeadAndLast(init, last);
    LeadAndLast(more, indent + last);
    assert Lead(more) + (indent + last) == (Lead(more) + indent) + last;
    TailMoves(Lead(init), Lead(more) + indent, last, b);
  }

  /** A block whose first and last lines moved along keeps the shape. */
  lemma MovedSelects(
      prefix: string, block: string, moved: string, suffix: string, a: nat, b: nat, step: nat, shift: nat)
    requires Selects(prefix, block, suffix, a, b) && step <= shift
    requires |moved| == |block| + shift && a + step <= |moved| && OneLine(moved[..a + step])
    requires b <= |block| ==> moved[b + shift - 1] == block[b - 1] && moved[b + shift..] == block[b..]
    ensures Selects(prefix, moved, suffix, a + step, b + shift)
  {}

  lemma RepeatFacts(tabSize: nat, n: nat)
    ensures OneLine(Repeat(tabSize)) && |Repeat(tabSize)| * n == tabSize * n
  {}

  /** Indenting every line of the block keeps the shape, with both ends moved along. */
  lemma IndentSelects(prefix: string, lines: seq<string>, suffix: string, a: nat, b: nat, tabSize: nat)
    requires |lines| >= 1 && AllLines(lines)
    requires Selects(prefix, Join(lines), suffix, a, b)
    ensures Selects(prefix, Join(IndentAll(lines, Repeat(tabSize))), suffix, a + tabSize, b + tabSize * |lines|)
  {
    hide *;
    var indent := Repeat(tabSize);
    RepeatFacts(tabSize, |lines|);
    SelectionStart(prefix, lines, suffix, a, b);
    IndentedStart(lines, a, indent);
    IndentLength(lines, indent);
    MulAtLeast(|lines|, |indent|);
    if b <= |Join(lines)| {
      var init, last := lines[..|lines| - 1], lines[|lines| - 1];
      assert init + [last] == lines;
      SelectionEnd(prefix, init, last, suffix, a, b);
      IndentedEnd(init, last, b, indent);
    }
    MovedSelects(prefix, Join(lines), Join(IndentAll(lines, indent)), suffix, a, b, tabSize, tabSize * |lines|);
  }

  // ---- The round trip ----

  /** The lines a selection covers. */
  function Covered(e: Edit): seq<string>
    requires InBounds(e)
  {
    Split(Slice(e.value, RangeStart(e), RangeEnd(e)))
  }

  /** The covered lines of a selection over whole lines, and the text around them. */
  lemma WholeCovered(prefix: string, lines: seq<string>, suffix: string, e: Edit)
    requires |lines| >= 1 && AllLines(lines) && InBounds(e) && e.value == prefix + Join(lines) + suffix
    requires RangeStart(e) == |prefix| && RangeEnd(e) == |prefix| + |Join(lines)|
    ensures Covered(e) == lines && e.value[..RangeStart(e)] == prefix && e.value[RangeEnd(e)..] == suffix
  {
    assert Slice(e.value, RangeStart(e), RangeEnd(e)) == Join(lines);
    SplitJoin(lines);
  }

  /** Tab over a selection of whole lines. */
  lemma IndentOf(prefix: string, lines: seq<string>, suffix: string, a: nat, b: nat, tabSize: nat)
    requires |lines| >= 1 && AllLines(lines) && a < b
    requires
      var e := Whole(prefix, lines, suffix, a, b);
      InBounds(e) && RangeStart(e) == |prefix| && RangeEnd(e) == |prefix| + |Join(lines)|
    ensures IndentSelection(Whole(prefix, lines, suffix, a, b), tabSize) ==
            Whole(prefix, IndentAll(lines, Repeat(tabSize)), suffix, a + tabSize, b + tabSize * |lines|)
  {
    WholeCovered(prefix, lines, suffix, Whole(prefix, lines, suffix, a, b));
  }

  lemma IndentedCounts(lines: seq<string>, tabSize: nat)
    requires tabSize >= 1
    ensures
      var more := IndentAll(lines, Repeat(tabSize));
      && (forall k :: 0 <= k < |lines| ==> OutdentCount(more[k], tabSize) == tabSize)
      && Removed(more, tabSize) == tabSize * |lines|
  {
    var more := IndentAll(lines, Repeat(tabSize));
    forall k | 0 <= k < |lines| ensures OutdentCount(more[k], tabSize) == tabSize {
      OutdentUndoesIndent(lines[k], tabSize);
    }
    RemovedIndented(more, tabSize);
  }

  /** Shift+Tab over a selection of whole lines, all indented. */
  lemma OutdentOf(prefix: string, lines: seq<string>, suffix: string, a: nat, b: nat, tabSize: nat)
    requires |lines| >= 1 && AllLines(lines) && a < b && tabSize >= 1
    requires
      var more := IndentAll(lines, Repeat(tabSize));
      var e := Whole(prefix, more, suffix, a + tabSize, b + tabSize * |lines|);
      InBounds(e) && RangeStart(e) == |prefix| && RangeEnd(e) == |prefix| + |Join(more)|
    ensures
      var more := IndentAll(lines, Repeat(tabSize));
      OutdentSelection(Whole(prefix, more, suffix, a + tabSize, b + tabSize * |lines|), tabSize) ==
      Whole(prefix, lines, suffix, a, b)
  {
    hide RangeStart, RangeEnd, Join, IndentAll, OutdentAll, OutdentCount, Removed, Split, Slice;
    var more := IndentAll(lines, Repeat(tabSize));
    IndentKeepsLines(lines, tabSize);
    WholeCovered(prefix, more, suffix, Whole(prefix, more, suffix, a + tabSize, b + tabSize * |lines|));
    OutdentAllUndoes(lines, tabSize);
    IndentedCounts(lines, tabSize);
    assert OutdentCount(more[0], tabSize) == tabSize;
  }

  /** Away from a leading line feed, Shift+Tab undoes Tab on text and both selection ends. */
  lemma TabThenShiftTab(e: Edit, tabSize: nat)
    requires InBounds(e) && e.start < e.end && tabSize >= 1 && !AtLeadingBreak(e)
    ensures InBounds(IndentSelection(e, tabSize)) && OutdentSelection(IndentSelection(e, tabSize), tabSize) == e
  {
    hide RangeStart, RangeEnd, Selects, Join, IndentSelection, OutdentSelection, InBounds, AllLines, AtLeadingBreak;
    var prefix, lines, suffix, a, b := WholeOf(e);
    assert e == Whole(prefix, lines, suffix, a, b);
    RoundTripOf(prefix, lines, suffix, a, b, tabSize);
  }

  lemma WholeOf(e: Edit) returns (prefix: string, lines: seq<string>, suffix: string, a: nat, b: nat)
    requires InBounds(e) && e.start < e.end && !AtLeadingBreak(e)
    ensures |lines| >= 1 && AllLines(lines) && a < b && Selects(prefix, Join(lines), suffix, a, b)
    ensures e.value == prefix + Join(lines) + suffix && e.start == |prefix| + a && e.end == |prefix| + b
    ensures RangeStart(e) == |prefix| && RangeEnd(e) == |prefix| + |Join(lines)|
  {
    hide *;
    RangeSelects(e);
    var rs, re := RangeStart(e), RangeEnd(e);
    prefix, suffix, a, b := e.value[..rs], e.value[re..], e.start - rs, e.end - rs;
    lines := Split(e.value[rs..re]);
    JoinSplit(e.value[rs..re]);
    ThreeParts(e.value, rs, re);
  }

  lemma ThreeParts(v: string, i: nat, j: nat)
    requires i <= j <= |v|
    ensures v[..i] + v[i..j] + v[j..] == v
  {}

  lemma RoundTripOf(prefix: string, lines: seq<string>, suffix: string, a: nat, b: nat, tabSize: nat)
    requires |lines| >= 1 && AllLines(lines) && tabSize >= 1 && a < b
    requires Selects(prefix, Join(lines), suffix, a, b)
    requires
      var e := Whole(prefix, lines, suffix, a, b);
      InBounds(e) && RangeStart(e) == |prefix| && RangeEnd(e) == |prefix| + |Join(lines)|
    ensures
      var e := Whole(prefix, lines, suffix, a, b);
      InBounds(IndentSelection(e, tabSize)) && OutdentSelection(IndentSelection(e, tabSize), tabSize) == e
  {
    hide *;
    IndentOf(prefix, lines, suffix, a, b, tabSize);
    IndentSelects(prefix, lines, suffix, a, b, tabSize);
    SelectsRange(prefix, IndentAll(lines, Repeat(tabSize)), suffix, a + tabSize, b + tabSize * |lines|);
    OutdentOf(prefix, lines, suffix, a, b, tabSize);
  }

  /** The length of the covered block. */
  lemma CoveredLength(e: Edit)
    requires InBounds(e)
    ensures RangeStart(e) <= |e.value|
    ensures |Join(Covered(e))| == Max(0, RangeEnd(e) - RangeStart(e))
  {
    RangeFacts(e);
    JoinSplit(Slice(e.value, RangeStart(e), RangeEnd(e)));
  }

  /** Tab keeps the selection in bounds and moves its start off 0. */
  lemma Indented(e: Edit, tabSize: nat)
    requires InBounds(e) && tabSize >= 1
    ensures InBounds(IndentSelection(e, tabSize)) && IndentSelection(e, tabSize).start >= 1
  {
    hide RangeStart, RangeEnd, Join, IndentAll, Split, Slice;
    CoveredLength(e);
    IndentLength(Covered(e), Repeat(tabSize));
    MulAtLeast(|Covered(e)|, tabSize);
  }

  /** At a leading line feed the selection start is never restored. */
  lemma LeadingBreakMovesStart(e: Edit, tabSize: nat)
    requires InBounds(e) && e.start < e.end && tabSize >= 1 && AtLeadingBreak(e)
    ensures InBounds(IndentSelection(e, tabSize))
    ensures OutdentSelection(IndentSelection(e, tabSize), tabSize).start != e.start
  {
    RangeFacts(e);
    Indented(e, tabSize);
    var t, lines, ind := IndentSelection(e, tabSize), Covered(e), Repeat(tabSize);
    var moved := Join(IndentAll(lines, ind));
    FirstAndRest(IndentAll(lines, ind));
    forall k | 1 <= k < t.start ensures t.value[k] != '\n' {
      assert t.value[k] == moved[k - 1] == (ind + lines[0])[k - 1];
    }
    RangeStartIs(t, 1);
  }

  /** Tab then Shift+Tab is the identity exactly when the selection does not start at a leading line feed. */
  lemma TabRoundTrip(e: Edit, tabSize: nat)
    requires InBounds(e) && e.start < e.end && tabSize >= 1
    ensures InBounds(IndentSelection(e, tabSize))
    ensures OutdentSelection(IndentSelection(e, tabSize), tabSize) == e <==> !AtLeadingBreak(e)
  {
    if AtLeadingBreak(e) {
      LeadingBreakMovesStart(e, tabSize);
    } else {
      TabThenShiftTab(e, tabSize);
    }
  }

  /** The smallest failing case: Tab doubles the line feed, and Shift+Tab does not take it back. */
  lemma TabAtLeadingBreak()
    ensures IndentSelection(Edit("\n", 0, 1), 1) == Edit("\n \n", 1, 2)
  {
    hide RangeStart, RangeEnd, Split, IndentAll, Repeat, AtLeadingBreak;
    var e := Edit("\n", 0, 1);
    LeadingBreakRange();
    SplitOneLine("");
    OneUnit();
    assert Slice(e.value, 1, 0) == "";
    assert e.value[..1] == "\n" && e.value[0..] == "\n";
    assert "\n" + " " + "\n" == "\n \n";
  }

  lemma LeadingBreakRange()
    ensures RangeStart(Edit("\n", 0, 1)) == 1 && RangeEnd(Edit("\n", 0, 1)) == 0
  {
    RangeFacts(Edit("\n", 0, 1));
    RangeEndIs(Edit("\n", 0, 1), 0);
  }

  lemma OneUnit()
    ensures Repeat(1) == " " && IndentAll([""], " ") == [" "]
  {
    assert Repeat(1) == Repeat(0) + " ";
    assert IndentAll([""], " ") == [" " + ""] + IndentAll([], " ");
    assert [""][1..] == [] && " " + "" == " ";
  }

  lemma ShiftTabAfterLeadingBreak()
    ensures OutdentSelection(Edit("\n \n", 1, 2), 1) == Edit("\n\n", 1, 1)
  {
    var t := Edit("\n \n", 1, 2);
    RangeStartIs(t, 1);
    RangeEndIs(t, 2);
    assert Slice(t.value, 1, 2) == " ";
    SplitOneLine(" ");
    OneSpace();
    assert t.value[..1] == "\n" && t.value[2..] == "\n";
    assert "\n" + "" + "\n" == "\n\n";
  }

  lemma OneSpace()
    ensures OutdentCount(" ", 1) == 1 && OutdentAll([" "], 1) == [""] && Removed([" "], 1) == 1
  {
    assert LeadingSpaces(" ", 1) == 1 + LeadingSpaces("", 0);
    assert " "[1..] == "";
    assert [" "][..0] == [];
  }

  lemma TabRoundTripFails()
    ensures
      var t := IndentSelection(Edit("\n", 0, 1), 1);
      InBounds(t) && OutdentSelection(t, 1) == Edit("\n\n", 1, 1)
  {
    hide IndentSelection, OutdentSelection;
    TabAtLeadingBreak();
    ShiftTabAfterLeadingBreak();
  }

  // ---- Tab and Shift+Tab at a caret ----

  predicate AllSpaces(s: string) {
    forall k :: 0 <= k < |s| ==> s[k] == ' '
  }

  /** A caret in a line: the text before the line, the line before and behind the caret, the text behind the line. */
  predicate CaretIn(e: Edit, prefix: string, p: string, q: string, suffix: string) {
    && e.value == prefix + (p + q) + suffix && e.start == e.end == |prefix| + |p|
    && (prefix == "" || prefix[|prefix| - 1] == '\n') && (suffix == "" || suffix[0] == '\n')
    && OneLine(p) && OneLine(q)
  }

  lemma CaretLine(e: Edit) returns (prefix: string, p: string, q: string, suffix: string)
    requires InBounds(e) && e.start == e.end
    ensures CaretIn(e, prefix, p, q, suffix) && p == e.value[CurrentLineStart(e)..e.start]
  {
    hide CurrentLineStart;
    var from, to := CurrentLineStart(e), NextBreak(e.value, e.start);
    prefix, p, q, suffix := e.value[..from], e.value[from..e.start], e.value[e.start..to], e.value[to..];
    assert p + q == e.value[from..to];
    ThreeParts(e.value, from, to);
  }

  /** Shift+Tab at a caret behind the start of its line shortens that line alone. */
  lemma OutdentAtCaret(e: Edit, prefix: string, p: string, q: string, suffix: string, tabSize: nat)
    requires CaretIn(e, prefix, p, q, suffix) && p != ""
    ensures
      var n := OutdentCount(p + q, tabSize);
      && InBounds(e)
      && OutdentSelection(e, tabSize).value == prefix + (p + q)[n..] + suffix
      && OutdentSelection(e, tabSize).start == e.start - Min(n, |p|)
      && OutdentSelection(e, tabSize).end == Max(e.start - Min(n, |p|), e.end - n)
  {
    hide RangeStart, RangeEnd, OutdentCount, Slice, Split;
    var line, n := p + q, OutdentCount(p + q, tabSize);
    assert Join([line]) == line;
    CaretRange(e, prefix, p, q, suffix);
    WholeCovered(prefix, [line], suffix, e);
    OutdentOne(line, tabSize);
  }

  lemma CaretRange(e: Edit, prefix: string, p: string, q: string, suffix: string)
    requires CaretIn(e, prefix, p, q, suffix) && p != ""
    ensures InBounds(e) && RangeStart(e) == |prefix| && RangeEnd(e) == |prefix| + |p + q|
  {
    hide RangeStart, RangeEnd;
    forall k | |prefix| <= k < e.start ensures e.value[k] != '\n' {
      assert e.value[k] == p[k - |prefix|];
    }
    RangeStartIs(e, |prefix|);
    forall k | e.start <= k < e.start + |q| ensures e.value[k] != '\n' {
      assert e.value[k] == q[k - e.start];
    }
    RangeEndIs(e, e.start + |q|);
  }

  lemma OutdentOne(line: string, tabSize: nat)
    ensures
      var n := OutdentCount(line, tabSize);
      && OutdentAll([line], tabSize) == [line[n..]] && Join(OutdentAll([line], tabSize)) == line[n..]
      && Removed([line], tabSize) == n
  {
    hide OutdentCount;
    assert [line][..0] == [];
  }

  /** A text that a shift by spaces leaves alone consists of spaces. */
  lemma {:induction false} ShiftedSpaces(p: string, n: nat, i: nat)
    requires n >= 1 && i < |p|
    requires forall k :: 0 <= k < |p| && |p| <= k + n ==> p[k] == ' '
    requires forall k :: n <= k < |p| ==> p[k] == p[k - n]
    ensures p[i] == ' '
    decreases |p| - i
  {
    if i + n < |p| {
      ShiftedSpaces(p, n, i + n);
    }
  }

  /** Outdenting an indented line gives it back exactly when only spaces stand before the place of the indent. */
  lemma OutdentRestoresExactly(p: string, q: string, tabSize: nat)
    requires tabSize >= 1
    ensures
      var line := p + Repeat(tabSize) + q;
      && (AllSpaces(p) ==> OutdentCount(line, tabSize) == tabSize)
      && (line[OutdentCount(line, tabSize)..] == p + q <==> AllSpaces(p))
  {
    hide LeadingSpaces, Repeat;
    var unit := Repeat(tabSize);
    var line := p + unit + q;
    var n := OutdentCount(line, tabSize);
    if AllSpaces(p) {
      SpacesOfIndented(line[..tabSize], line[tabSize..]);
      assert line[..tabSize] + line[tabSize..] == line;
    }
    if line[n..] == p + q {
      assert |line| - n == |p| + |q|;
      forall k | 0 <= k < |p| ensures p[k] == line[k + n] {
        assert p[k] == line[n..][k];
      }
      forall k | n <= k < |p| ensures p[k] == p[k - n] {
        assert p[k - n] == line[k - n + n];
      }
      forall k | 0 <= k < |p| ensures p[k] == ' ' {
        ShiftedSpaces(p, n, k);
      }
    }
  }

  /** Tab then Shift+Tab at a caret restores text and caret exactly when only spaces stand before the caret in its
      line. */
  lemma TabAtCaretRoundTrip(e: Edit, tabSize: nat)
    requires InBounds(e) && e.start == e.end && tabSize >= 1
    ensures InBounds(IndentSelection(e, tabSize))
    ensures OutdentSelection(IndentSelection(e, tabSize), tabSize) == e <==>
            AllSpaces(e.value[CurrentLineStart(e)..e.start])
  {
    hide OutdentCount, OutdentSelection, Repeat, CurrentLineStart;
    var prefix, p, q, suffix := CaretLine(e);
    var unit, t := Repeat(tabSize), IndentSelection(e, tabSize);
    assert p + unit + q == (p + unit) + q;
    assert t.value == prefix + (p + unit + q) + suffix by {
      assert e.value[..e.start] == prefix + p && e.value[e.end..] == q + suffix;
    }
    assert CaretIn(t, prefix, p + unit, q, suffix);
    OutdentAtCaret(t, prefix, p + unit, q, suffix, tabSize);
    OutdentRestoresExactly(p, q, tabSize);
    MiddleEqual(prefix, (p + unit + q)[OutdentCount(p + unit + q, tabSize)..], p + q, suffix);
  }

  lemma MiddleEqual(prefix: string, x: string, y: string, suffix: string)
    ensures prefix + x + suffix == prefix + y + suffix <==> x == y
  {
    if prefix + x + suffix == prefix + y + suffix {
      assert |x| == |y|;
      assert x == (prefix + x + suffix)[|prefix|..|prefix| + |x|];
      assert y == (prefix + y + suffix)[|prefix|..|prefix| + |y|];
    }
  }

  // ---- Shift+Tab on any selection ----

  lemma {:induction false} OutdentLength(lines: seq<string>, tabSize: nat)
    ensures |Join(OutdentAll(lines, tabSize))| == |Join(lines)| - Removed(lines, tabSize)
  {
    if lines != [] {
      var init, last := lines[..|lines| - 1], lines[|lines| - 1];
      assert lines == init + [last];
      OutdentLength(init, tabSize);
      OutdentAllSplit(init, last, tabSize);
      LeadAndLast(init, last);
      LeadAndLast(OutdentAll(init, tabSize), last[OutdentCount(last, tabSize)..]);
    }
  }

  lemma OutdentAllSplit(init: seq<string>, last: string, tabSize: nat)
    ensures OutdentAll(init + [last], tabSize) == OutdentAll(init, tabSize) + [last[OutdentCount(last, tabSize)..]]
  {}

  /** Shift+Tab takes from every selected line one tab, or else its leading spaces up to the tab size, and nothing else.
      The start of the selection moves back by what its own line lost before it, but not out of the line, and the end by
      all that was lost, but not before the start. */
  lemma ShiftTabExactly(e: Edit, language: Language, tabSize: nat)
    requires InBounds(e) && tabSize >= 1 && !AtLeadingBreak(e)
    ensures
      var r := Handle(e, Tab(true), language, tabSize).value;
      var prefix, suffix := e.value[..RangeStart(e)], e.value[RangeEnd(e)..];
      var lines := Covered(e);
      && RangeStart(e) <= e.start && e.value == prefix + Join(lines) + suffix
      && exists less: seq<string> ::
           && |less| == |lines| && r.value == prefix + Join(less) + suffix
           && (forall k :: 0 <= k < |lines| ==> Unindented(lines[k], less[k], tabSize))
           && r.start == Max(RangeStart(e), e.start - (|lines[0]| - |less[0]|))
           && r.end == Max(r.start, e.end - (|e.value| - |r.value|))
  {
    hide RangeStart, RangeEnd, Join, OutdentAll, OutdentCount, Removed, Split, Slice, Handle, Unindented, OneLine,
      OutdentSelection;
    ShiftTabIsHandled(e, language, tabSize);
    RangeFacts(e);
    var rs, re, lines := RangeStart(e), RangeEnd(e), Covered(e);
    SliceIs(e.value, rs, re);
    JoinSplit(e.value[rs..re]);
    ThreeParts(e.value, rs, re);
    OutdentSelectionIs(e, tabSize);
    AllUnindented(lines, tabSize);
  }

  /** Shift+Tab on text and both ends. */
  lemma OutdentSelectionIs(e: Edit, tabSize: nat)
    requires InBounds(e) && RangeStart(e) <= e.start <= RangeEnd(e)
    requires e.value == e.value[..RangeStart(e)] + Join(Covered(e)) + e.value[RangeEnd(e)..]
    ensures
      var r, lines := OutdentSelection(e, tabSize), Covered(e);
      && r.value == e.value[..RangeStart(e)] + Join(OutdentAll(lines, tabSize)) + e.value[RangeEnd(e)..]
      && r.start == Max(RangeStart(e), e.start - OutdentCount(lines[0], tabSize))
      && r.end == Max(r.start, e.end - (|e.value| - |r.value|))
  {
    hide RangeStart, RangeEnd, Join, OutdentAll, OutdentCount, Removed, Split, Slice;
    OutdentLength(Covered(e), tabSize);
  }

  lemma AllUnindented(lines: seq<string>, tabSize: nat)
    requires |lines| >= 1
    ensures
      var less := OutdentAll(lines, tabSize);
      && (forall k :: 0 <= k < |lines| ==> Unindented(lines[k], less[k], tabSize))
      && |lines[0]| - |less[0]| == OutdentCount(lines[0], tabSize)
  {
    hide OutdentAll, OutdentCount, Unindented;
    var less := OutdentAll(lines, tabSize);
    forall k | 0 <= k < |lines| ensures Unindented(lines[k], less[k], tabSize) {
      UnindentedIs(lines[k], tabSize);
    }
  }

  lemma ShiftTabIsHandled(e: Edit, language: Language, tabSize: nat)
    requires InBounds(e) && tabSize >= 1
    ensures Handle(e, Tab(true), language, tabSize) == Some(OutdentSelection(e, tabSize))
  {}

  /** The line without one tab, or else without its leading spaces up to the tab size. */
  predicate Unindented(line: string, less: string, tabSize: nat) {
    && |less| <= |line| && less == line[|line| - |less|..]
    && var n := |line| - |less|;
    && if line != "" && line[0] == '\t' then n == 1
       else && n <= tabSize && (forall k :: 0 <= k < n ==> line[k] == ' ')
            && (n < tabSize ==> less == "" || less[0] != ' ')
  }

  lemma UnindentedIs(line: string, tabSize: nat)
    ensures Unindented(line, line[OutdentCount(line, tabSize)..], tabSize)
  {
    hide OutdentCount;
    var n := OutdentCount(line, tabSize);
    var less := line[n..];
    assert |line| - |less| == n && (less != "" ==> less[0] == line[n]);
  }

  lemma SliceIs(v: string, i: nat, j: nat)
    requires i <= j <= |v|
    ensures Slice(v, i, j) == v[i..j]
  {}
}
