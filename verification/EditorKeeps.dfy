/** What every key keeps: a selection within the text, and the visible characters. */
module EditorKeeps {
  import opened Verdicts
  import opened Lines
  import opened EditorKeys
  import opened EditorIndent
  import opened EditorTyping

  // ---- Selections stay in bounds ----

  /** The first line is at least as long as the part of it before the selection. */
  lemma StartInFirstLine(e: Edit)
    requires InBounds(e) && e.start > RangeStart(e)
    ensures e.start - RangeStart(e) <= |Covered(e)[0]|
  {
    hide RangeStart, RangeEnd, Split;
    RangeFacts(e);
    var rs, re := RangeStart(e), RangeEnd(e);
    PrefixOfSlice(e.value, rs, e.start, re);
    FirstLineHolds(e.value[rs..re], e.start - rs);
  }

  lemma PrefixOfSlice(v: string, i: nat, k: nat, j: nat)
    requires i <= k <= j <= |v|
    ensures v[i..j][..k - i] == v[i..k]
  {}

  lemma OutdentInBounds(e: Edit, tabSize: nat)
    requires InBounds(e)
    ensures InBounds(OutdentSelection(e, tabSize))
  {
    hide RangeStart, RangeEnd, Join, OutdentAll, OutdentCount, Removed, Split, Slice;
    var lines, rs := Covered(e), RangeStart(e);
    CoveredLength(e);
    OutdentLength(lines, tabSize);
    FirstAndRest(OutdentAll(lines, tabSize));
    if e.start > rs {
      StartInFirstLine(e);
    }
  }

  /** Whatever the key, the state and the language, the new selection is ordered and within the new text. */
  lemma SelectionStaysInBounds(e: Edit, key: Key, language: Language, tabSize: nat)
    requires InBounds(e) && tabSize >= 1
    ensures
      var r := Handle(e, key, language, tabSize);
      r.Some? ==> InBounds(r.value)
  {
    match key
    case Tab(shift) =>
      if shift {
        OutdentInBounds(e, tabSize);
      } else {
        Indented(e, tabSize);
      }
    case _ =>
  }

  // ---- Visible characters ----

  predicate IsSpace(c: char) {
    c in {' ', '\t', '\n'}
  }

  /** The non-whitespace characters of a text, in order. */
  function Ink(s: string): string {
    if s == "" then "" else (if IsSpace(s[0]) then "" else [s[0]]) + Ink(s[1..])
  }

  lemma {:induction false} InkConcat(a: string, b: string)
    ensures Ink(a + b) == Ink(a) + Ink(b)
  {
    if a == "" {
      assert a + b == b;
    } else {
      assert (a + b)[1..] == a[1..] + b;
      InkConcat(a[1..], b);
    }
  }

  lemma {:induction false} InkOfSpace(s: string)
    requires forall k :: 0 <= k < |s| ==> IsSpace(s[k])
    ensures Ink(s) == ""
  {
    if s != "" {
      InkOfSpace(s[1..]);
    }
  }

  lemma InkConcat3(a: string, b: string, c: string)
    ensures Ink(a + b + c) == Ink(a) + Ink(b) + Ink(c)
  {
    InkConcat(a + b, c);
    InkConcat(a, b);
  }

  /** Lines with the same ink join to texts with the same ink. */
  lemma {:induction false} InkOfJoin(x: seq<string>, y: seq<string>)
    requires |x| == |y| && forall k :: 0 <= k < |x| ==> Ink(x[k]) == Ink(y[k])
    ensures Ink(Join(x)) == Ink(Join(y))
  {
    if |x| >= 2 {
      InkOfJoin(x[1..], y[1..]);
      InkConcat3(x[0], "\n", Join(x[1..]));
      InkConcat3(y[0], "\n", Join(y[1..]));
    }
  }

  lemma InkOfOutdented(line: string, tabSize: nat)
    ensures Ink(line[OutdentCount(line, tabSize)..]) == Ink(line)
  {
    var n := OutdentCount(line, tabSize);
    InkOfSpace(line[..n]);
    InkConcat(line[..n], line[n..]);
    assert line[..n] + line[n..] == line;
  }

  lemma InkOfIndented(line: string, tabSize: nat)
    ensures Ink(Repeat(tabSize) + line) == Ink(line)
  {
    InkOfSpace(Repeat(tabSize));
    InkConcat(Repeat(tabSize), line);
  }

  /** Replacing the covered block by one with the same ink keeps the ink of the text. */
  lemma InkOfReplaced(e: Edit, block: string)
    requires InBounds(e) && RangeStart(e) <= |e.value|
    requires Ink(block) == Ink(Slice(e.value, RangeStart(e), RangeEnd(e)))
    ensures Ink(e.value[..RangeStart(e)] + block + e.value[RangeEnd(e)..]) == Ink(e.value)
  {
    RangeFacts(e);
    var rs, re := RangeStart(e), RangeEnd(e);
    InkConcat3(e.value[..rs], block, e.value[re..]);
    if rs <= re {
      assert Slice(e.value, rs, re) == e.value[rs..re];
      InkConcat3(e.value[..rs], e.value[rs..re], e.value[re..]);
      ThreeParts(e.value, rs, re);
    } else {
      assert e.value[..1] == "\n" && re == 0;
      InkOfSpace(e.value[..1]);
      assert e.value[re..] == e.value;
    }
  }

  lemma TabKeepsInk(e: Edit, tabSize: nat)
    requires InBounds(e)
    ensures Ink(IndentSelection(e, tabSize).value) == Ink(e.value)
    ensures Ink(OutdentSelection(e, tabSize).value) == Ink(e.value)
  {
    RangeFacts(e);
    var lines, indent := Covered(e), Repeat(tabSize);
    var block := Slice(e.value, RangeStart(e), RangeEnd(e));
    JoinSplit(block);
    forall k | 0 <= k < |lines|
      ensures Ink(indent + lines[k]) == Ink(lines[k]) &&
              Ink(lines[k][OutdentCount(lines[k], tabSize)..]) == Ink(lines[k])
    {
      InkOfIndented(lines[k], tabSize);
      InkOfOutdented(lines[k], tabSize);
    }
    InkOfJoin(IndentAll(lines, indent), lines);
    InkOfReplaced(e, Join(IndentAll(lines, indent)));
    InkOfJoin(OutdentAll(lines, tabSize), lines);
    InkOfReplaced(e, Join(OutdentAll(lines, tabSize)));
    InkOfInserted(e.value, e.start, e.start, indent);
  }

  /** Replacing a range by white space keeps exactly the ink outside the range. */
  lemma InkOfInserted(v: string, from: nat, to: nat, space: string)
    requires from <= to <= |v| && forall k :: 0 <= k < |space| ==> IsSpace(space[k])
    ensures Ink(v[..from] + space + v[to..]) == Ink(v[..from]) + Ink(v[to..])
    ensures from == to ==> Ink(v[..from] + space + v[to..]) == Ink(v)
  {
    hide *;
    InkConcat3(v[..from], space, v[to..]);
    InkOfSpace(space);
    assert Ink(v[..from]) + "" == Ink(v[..from]);
    InkConcat(v[..from], v[from..]);
    assert v[..from] + v[from..] == v;
  }

  lemma EnterKeepsInk(e: Edit, tabSize: nat)
    requires InBounds(e)
    ensures Ink(InsertIndentedNewline(e, tabSize).value) == Ink(e.value[..e.start]) + Ink(e.value[e.end..])
  {
    var space := EnterInserts(e, tabSize);
    InkOfInserted(e.value, e.start, e.end, space);
  }

  /** Enter puts white space in place of the selection. */
  lemma EnterInserts(e: Edit, tabSize: nat) returns (space: string)
    requires InBounds(e)
    ensures forall k :: 0 <= k < |space| ==> IsSpace(space[k])
    ensures InsertIndentedNewline(e, tabSize).value == e.value[..e.start] + space + e.value[e.end..]
  {
    hide LineIndent, LastBreak, Repeat, CurrentIndent, CurrentLineStart;
    var current := CurrentIndent(e);
    var inner := current + if IsIndentOpener(At(e.value, e.start - 1)) then Repeat(tabSize) else "";
    space := "\n" + inner + if OpensBlock(e) then "\n" + current else "";
  }

  lemma BlankAt(s: string, i: nat)
    requires AllBlank(s) && i < |s|
    ensures IsSpace(s[i])
  {}

  /** Backspace in indentation deletes a span of blanks before the caret. */
  lemma IndentationSpan(e: Edit, tabSize: nat) returns (from: nat)
    requires InBounds(e) && tabSize >= 1 && DeleteIndentation(e, tabSize).Some?
    ensures from <= e.start && DeleteIndentation(e, tabSize).value.value == e.value[..from] + e.value[e.start..]
    ensures forall k :: 0 <= k < |e.value[from..e.start]| ==> IsSpace(e.value[from..e.start][k])
  {
    hide OffsetAt, TabStopBefore, MoreThanZero;
    from := DeleteIndentation(e, tabSize).value.start;
    var lineStart := LineStart(e.value, e.start);
    var line := e.value[lineStart..NextBreak(e.value, e.start)];
    forall k | 0 <= k < e.start - from ensures IsSpace(e.value[from..e.start][k]) {
      assert e.value[from..e.start][k] == line[from - lineStart + k];
      BlankAt(line, from - lineStart + k);
    }
  }

  lemma InkOfCut(v: string, from: nat, to: nat)
    requires from <= to <= |v| && forall k :: 0 <= k < |v[from..to]| ==> IsSpace(v[from..to][k])
    ensures Ink(v[..from] + v[to..]) == Ink(v)
  {
    hide *;
    InkConcat(v[..from], v[to..]);
    InkConcat3(v[..from], v[from..to], v[to..]);
    InkOfSpace(v[from..to]);
    ThreeParts(v, from, to);
    assert Ink(v[..from]) + "" == Ink(v[..from]);
  }

  lemma IndentationBackspaceKeepsInk(e: Edit, tabSize: nat)
    requires InBounds(e) && tabSize >= 1 && DeleteIndentation(e, tabSize).Some?
    ensures Ink(DeleteIndentation(e, tabSize).value.value) == Ink(e.value)
  {
    hide Ink, DeleteIndentation;
    var from := IndentationSpan(e, tabSize);
    InkOfCut(e.value, from, e.start);
  }

  /** Tab, Shift+Tab, Enter and Backspace in indentation never lose, add or reorder a visible character
      outside a replaced selection. */
  lemma VisibleCharactersKept(e: Edit, key: Key, language: Language, tabSize: nat)
    requires InBounds(e) && tabSize >= 1
    ensures key.Tab? ==> Ink(Handle(e, key, language, tabSize).value.value) == Ink(e.value)
    ensures key.Enter? ==>
              Ink(Handle(e, key, language, tabSize).value.value) == Ink(e.value[..e.start]) + Ink(e.value[e.end..])
    ensures key.Backspace? && DeleteIndentation(e, tabSize).Some? ==>
              Ink(Handle(e, key, language, tabSize).value.value) == Ink(e.value)
  {
    match key
    case Tab(_) => TabKeepsInk(e, tabSize);
    case Enter => EnterKeepsInk(e, tabSize);
    case Backspace =>
      if DeleteIndentation(e, tabSize).Some? {
        IndentationBackspaceKeepsInk(e, tabSize);
      }
    case _ =>
  }

  // ---- Wrapping a selection ----

  /** The closer an opener brings when it is typed over a selection. */
  function WrapCloser(c: char, language: Language): Option<char> {
    if c in {'(', '[', '{', '"', '\'', '`'} || (c == '<' && language in {CPP, JAVA}) then Some(CloserOf(c)) else None
  }

  predicate Openers(w: string, language: Language) {
    forall k :: 0 <= k < |w| ==> WrapCloser(w[k], language).Some?
  }

  /** The closers of a word of openers, innermost first. */
  function Closers(w: string, language: Language): string
    requires Openers(w, language)
  {
    if w == "" then "" else Closers(w[1..], language) + [WrapCloser(w[0], language).value]
  }

  lemma OpenerWraps(before: string, selected: string, after: string, c: char, language: Language, tabSize: nat)
    requires tabSize >= 1 && selected != "" && WrapCloser(c, language).Some?
    ensures
      var e := Edit(before + selected + after, |before|, |before| + |selected|);
      && InBounds(e)
      && Type(e, c, language, tabSize) ==
           Edit(before + [c] + selected + ([WrapCloser(c, language).value] + after), e.start + 1, e.end + 1)
  {
    var e := Edit(before + selected + after, |before|, |before| + |selected|);
    assert e.value[..e.start] == before && e.value[e.start..e.end] == selected && e.value[e.end..] == after;
    var close := WrapCloser(c, language).value;
    assert before + [c] + selected + [close] + after == before + [c] + selected + ([close] + after);
  }

  /** Openers typed over a selection nest around it: the same text stays selected between the word and its closers. */
  lemma {:induction false} OpenersNest(
      before: string, selected: string, after: string, w: string, language: Language, tabSize: nat)
    requires tabSize >= 1 && selected != "" && Openers(w, language)
    ensures
      TypeWord(Edit(before + selected + after, |before|, |before| + |selected|), w, language, tabSize) ==
      Edit(before + w + selected + Closers(w, language) + after, |before| + |w|, |before| + |w| + |selected|)
    decreases |w|
  {
    hide Type, WrapCloser;
    if w == "" {
      assert before + w + selected + "" + after == before + selected + after;
    } else {
      var close := WrapCloser(w[0], language).value;
      OpenerWraps(before, selected, after, w[0], language, tabSize);
      OpenersNest(before + [w[0]], selected, [close] + after, w[1..], language, tabSize);
      Regroup(before, w, selected, Closers(w[1..], language), close, after);
    }
  }

  /** Over a selection the handler takes exactly the openers: closers and all other characters replace it, and Backspace
      deletes it, as the browser does. */
  lemma OverSelection(e: Edit, c: char, language: Language, tabSize: nat)
    requires InBounds(e) && e.start < e.end && tabSize >= 1
    ensures Handle(e, Char(c), language, tabSize).Some? <==>
            c in {'(', '[', '{', '"', '\'', '`'} || (c == '<' && language in {CPP, JAVA})
    ensures Handle(e, Backspace, language, tabSize) == None
  {}

  lemma Regroup(before: string, w: string, selected: string, closers: string, close: char, after: string)
    requires w != ""
    ensures before + [w[0]] + w[1..] + selected + closers + ([close] + after) ==
            before + w + selected + (closers + [close]) + after
  {
    assert [w[0]] + w[1..] == w;
  }

  // ---- Enter ----

  /** Enter keeps the text before the selection, starts a line with the indentation of the current one, deeper by one
      unit behind an opening bracket, and puts the caret behind it; between a bracket and its closer the closer
      moves to a line of its own with the current indentation. */
  lemma EnterContinuesIndentation(e: Edit, tabSize: nat)
    requires InBounds(e)
    ensures
      var r := InsertIndentedNewline(e, tabSize);
      var current := LineIndent(e.value[CurrentLineStart(e)..e.start]);
      var deeper := if IsIndentOpener(At(e.value, e.start - 1)) then tabSize else 0;
      && e.start < r.start == r.end <= |r.value|
      && r.value[..e.start] == e.value[..e.start]
      && r.value[e.start..r.start] == "\n" + (current + Repeat(deeper))
      && r.value[r.start..] == (if OpensBlock(e) then "\n" + current else "") + e.value[e.end..]
  {
    hide LineIndent, Repeat, OpensBlock, IsIndentOpener, CurrentLineStart, InsertIndentedNewline;
    var current := CurrentIndent(e);
    var deeper := if IsIndentOpener(At(e.value, e.start - 1)) then tabSize else 0;
    var tail := if OpensBlock(e) then "\n" + current else "";
    EnterShape(e, tabSize);
    EnterPieces(e.value[..e.start], current + Repeat(deeper), tail, e.value[e.end..]);
  }

  lemma EnterShape(e: Edit, tabSize: nat)
    requires InBounds(e)
    ensures
      var current, deeper := CurrentIndent(e), if IsIndentOpener(At(e.value, e.start - 1)) then tabSize else 0;
      var inner, tail := current + Repeat(deeper), if OpensBlock(e) then "\n" + current else "";
      var caret := e.start + 1 + |inner|;
      InsertIndentedNewline(e, tabSize) ==
      Edit(e.value[..e.start] + ("\n" + inner + tail) + e.value[e.end..], caret, caret)
  {
    hide LineIndent, Repeat, OpensBlock, IsIndentOpener, CurrentLineStart;
    NoUnits();
  }

  lemma NoUnits()
    ensures Repeat(0) == ""
  {}

  lemma EnterPieces(before: string, inner: string, tail: string, after: string)
    ensures
      var v, caret := before + ("\n" + inner + tail) + after, |before| + 1 + |inner|;
      v[..|before|] == before && v[|before|..caret] == "\n" + inner && v[caret..] == tail + after
  {}

  lemma {:induction false} ColumnAfterSpaces(prefix: string, n: nat, tabSize: nat)
    requires tabSize >= 1
    ensures Column(prefix + Repeat(n), tabSize) == Column(prefix, tabSize) + n
  {
    if n == 0 {
      assert prefix + Repeat(0) == prefix;
    } else {
      ColumnAfterSpaces(prefix, n - 1, tabSize);
      var longer := prefix + Repeat(n);
      assert longer[..|longer| - 1] == prefix + Repeat(n - 1) && longer[|longer| - 1] == ' ';
    }
  }

  /** How much deeper Enter indents. */
  function Deeper(e: Edit, tabSize: nat): nat {
    if IsIndentOpener(At(e.value, e.start - 1)) then tabSize else 0
  }

  lemma LineStartAfterBreak(v: string, from: nat, caret: nat)
    requires 1 <= from <= caret <= |v| && v[from - 1] == '\n' && OneLine(v[from..caret])
    ensures LineStart(v, caret) == from
  {
    forall k | from <= k < caret ensures v[k] != '\n' {
      assert v[k] == v[from..caret][k - from];
    }
  }

  lemma BlankIsOneLine(s: string)
    requires AllBlank(s)
    ensures OneLine(s)
  {}

  /** After Enter the caret stands in a new line, at the visual column of the current line's indentation, and one unit
      further right behind an opening bracket, however tabs and spaces are mixed. */
  lemma EnterColumn(e: Edit, tabSize: nat)
    requires InBounds(e) && tabSize >= 1
    ensures
      var r := InsertIndentedNewline(e, tabSize);
      && 1 <= r.start == r.end <= |r.value| && LineStart(r.value, r.start) == e.start + 1
      && AllBlank(r.value[e.start + 1..r.start])
      && Column(r.value[e.start + 1..r.start], tabSize) == Column(CurrentIndent(e), tabSize) + Deeper(e, tabSize)
  {
    hide LineIndent, Repeat, OpensBlock, IsIndentOpener, CurrentLineStart, InsertIndentedNewline, LineStart, Column;
    EnterContinuesIndentation(e, tabSize);
    var r, indent := InsertIndentedNewline(e, tabSize), CurrentIndent(e) + Repeat(Deeper(e, tabSize));
    var line := r.value[e.start..r.start];
    assert line == "\n" + indent && line[0] == r.value[e.start];
    assert r.value[e.start + 1..r.start] == line[1..] == indent;
    SpacesAreBlank(Deeper(e, tabSize));
    BlankIsOneLine(indent);
    LineStartAfterBreak(r.value, e.start + 1, r.start);
    ColumnAfterSpaces(CurrentIndent(e), Deeper(e, tabSize), tabSize);
  }

  lemma SpacesAreBlank(n: nat)
    ensures AllBlank(Repeat(n))
  {}

  lemma StopOneUnitBack(column: nat, tabSize: nat)
    requires tabSize >= 1 && column % tabSize == 0
    ensures TabStopBefore(column + tabSize, tabSize) == column
  {
    StopBefore(column + tabSize, tabSize);
    MultipleBetween(column, tabSize, TabStopBefore(column + tabSize, tabSize));
  }

  /** Nothing follows the caret in its line after Enter. */
  predicate EndsLine(e: Edit)
    requires InBounds(e)
  {
    OpensBlock(e) || e.end == |e.value| || e.value[e.end] == '\n'
  }

  lemma EnterLeavesBlankLine(e: Edit, tabSize: nat)
    requires InBounds(e) && tabSize >= 1 && EndsLine(e) && Deeper(e, tabSize) > 0
    ensures InBlankIndentation(InsertIndentedNewline(e, tabSize))
  {
    hide LineIndent, Repeat, OpensBlock, IsIndentOpener, CurrentLineStart, InsertIndentedNewline, LineStart, Column;
    EnterContinuesIndentation(e, tabSize);
    EnterColumn(e, tabSize);
    var r := InsertIndentedNewline(e, tabSize);
    var tail := r.value[r.start..];
    assert tail != "" ==> tail[0] == r.value[r.start];
    assert NextBreak(r.value, r.start) == r.start;
    assert |r.value[e.start..r.start]| == 1 + |CurrentIndent(e)| + |Repeat(Deeper(e, tabSize))|;
  }

  /** Enter behind an opening bracket at the end of its line and then Backspace: the caret is back at the column of the
      bracket's line, if that is on a tab stop. */
  lemma EnterThenBackspace(e: Edit, language: Language, tabSize: nat)
    requires InBounds(e) && tabSize >= 1 && EndsLine(e) && Deeper(e, tabSize) > 0
    requires Column(CurrentIndent(e), tabSize) % tabSize == 0
    ensures
      var r := InsertIndentedNewline(e, tabSize);
      && InBounds(r) && Handle(r, Backspace, language, tabSize).Some?
      && var b := Handle(r, Backspace, language, tabSize).value;
      && e.start + 1 <= b.start == b.end <= |b.value| && b.value == r.value[..b.start] + r.value[r.start..]
      && Column(b.value[e.start + 1..b.start], tabSize) == Column(CurrentIndent(e), tabSize)
  {
    hide Column, InsertIndentedNewline, LineStart, CurrentIndent, EndsLine, Handle, TabStopBefore, OnBlankLine;
    var r := InsertIndentedNewline(e, tabSize);
    EnterLeavesBlankLine(e, tabSize);
    EnterColumn(e, tabSize);
    var caret := BackspaceLandsOnStop(r, tabSize, language);
    StopOneUnitBack(Column(CurrentIndent(e), tabSize), tabSize);
    var b := Handle(r, Backspace, language, tabSize).value;
    assert b.value[e.start + 1..caret] == r.value[e.start + 1..caret];
  }

  // ---- Enter, written out ----

  predicate BlanksOnly(c: string) {
    forall k :: 0 <= k < |c| ==> c[k] == ' ' || c[k] == '\t'
  }

  /** The run of blanks at the start of a line is determined by what follows it. */
  lemma LongestBlanks(c: string, mid: string)
    requires BlanksOnly(c) && (mid == "" || (mid[0] != ' ' && mid[0] != '\t'))
    ensures LineIndent(c + mid) == c
  {
    var line, indent := c + mid, LineIndent(c + mid);
    hide LineIndent;
    forall k | 0 <= k < |c| ensures IsBlank(line[k]) {
      assert line[k] == c[k];
    }
    assert |indent| >= |c|;
    assert mid != "" ==> line[|c|] == mid[0];
    if |indent| > |c| {
      PrefixBlank(indent, line, |c|);
      assert false;
    }
    assert indent == line[..|c|] == c;
  }

  lemma PrefixBlank(indent: string, line: string, n: nat)
    requires AllBlank(indent) && indent <= line && n < |indent|
    ensures IsBlank(line[n])
  {
    assert indent[n] == line[n];
  }

  lemma IndentIs(head: string, c: string, mid: string, rest: string, e: Edit)
    requires (head == "" || head[|head| - 1] == '\n') && BlanksOnly(c) && OneLine(mid)
    requires mid == "" || (mid[0] != ' ' && mid[0] != '\t')
    requires e.value == head + c + mid + rest && e.start == |head + c + mid| <= e.end <= |e.value|
    ensures CurrentIndent(e) == c
  {
    hide LineIndent, LastBreak;
    var from, before := CurrentLineStart(e), head + c + mid;
    assert e.value[..e.start] == before;
    forall k | |head| <= k < e.start ensures e.value[k] != '\n' {
      assert e.value[k] == (c + mid)[k - |head|];
    }
    LineStartIs(e.value, |head|, from, e.start);
    assert e.value[from..e.start] == c + mid;
    LongestBlanks(c, mid);
  }

  lemma LineStartIs(v: string, from: nat, other: nat, caret: nat)
    requires from <= caret <= |v| && other <= caret
    requires (from == 0 || v[from - 1] == '\n') && forall k :: from <= k < caret ==> v[k] != '\n'
    requires (other == 0 || v[other - 1] == '\n') && OneLine(v[other..caret])
    ensures from == other
  {
    forall k | other <= k < caret ensures v[k] != '\n' {
      assert v[k] == v[other..caret][k - other];
    }
  }

  /** A new line indented by c, one unit deeper or not, and behind the caret a line of its own for the closer or not. */
  function EnterResult(before: string, c: string, deeper: bool, between: bool, right: string, tabSize: nat): Edit {
    var inner := if deeper then c + Repeat(tabSize) else c;
    var caret := |before| + 1 + |inner|;
    Edit(before + "\n" + inner + (if between then "\n" + c else "") + right, caret, caret)
  }

  lemma EnterText(e: Edit, before: string, right: string, c: string, tabSize: nat)
    requires InBounds(e) && e.value[..e.start] == before && e.value[e.end..] == right && CurrentIndent(e) == c
    ensures InsertIndentedNewline(e, tabSize) ==
            EnterResult(before, c, IsIndentOpener(At(e.value, e.start - 1)), OpensBlock(e), right, tabSize)
  {
    hide LineIndent, Repeat, CurrentIndent, CurrentLineStart, InsertIndentedNewline, OpensBlock, IsIndentOpener, At;
    NoUnits();
    EnterShape(e, tabSize);
    assert c + "" == c;
    var inner := c + Repeat(if IsIndentOpener(At(e.value, e.start - 1)) then tabSize else 0);
    Regrouped(before, inner, if OpensBlock(e) then "\n" + c else "", right);
  }

  lemma Regrouped(before: string, inner: string, tail: string, right: string)
    ensures before + ("\n" + inner + tail) + right == before + "\n" + inner + tail + right
  {}

  /** Enter on any selection, in any line with indentation c: the new line is indented by c, one unit deeper behind an
      opening bracket; exactly between a bracket and its closer the closer gets a line of its own, indented by c;
      everywhere else just the text behind the selection follows the caret. */
  lemma EnterExactly(
      head: string, c: string, mid: string, selected: string, right: string, language: Language, tabSize: nat)
    requires tabSize >= 1 && (head == "" || head[|head| - 1] == '\n') && BlanksOnly(c) && OneLine(mid)
    requires mid == "" || (mid[0] != ' ' && mid[0] != '\t')
    ensures
      var before := head + c + mid;
      var e := Edit(before + selected + right, |before|, |before| + |selected|);
      var deeper := before != "" && before[|before| - 1] in {'(', '[', '{'};
      var between := selected == "" && before != "" && right != "" &&
                     [before[|before| - 1], right[0]] in {"()", "[]", "{}"};
      Handle(e, Enter, language, tabSize) == Some(EnterResult(before, c, deeper, between, right, tabSize))
  {
    hide *;
    var before := head + c + mid;
    var e := Edit(before + selected + right, |before|, |before| + |selected|);
    assert e.value == before + (selected + right);
    assert e.value[..e.start] == before && e.value[e.end..] == right;
    SelectionInBounds(before, selected, right);
    IndentIs(head, c, mid, selected + right, e);
    BlockIs(before, selected, right);
    EnterText(e, before, right, c, tabSize);
    EnterIsHandled(e, language, tabSize);
  }

  lemma SelectionInBounds(before: string, selected: string, right: string)
    ensures InBounds(Edit(before + selected + right, |before|, |before| + |selected|))
  {}

  lemma EnterIsHandled(e: Edit, language: Language, tabSize: nat)
    requires InBounds(e) && tabSize >= 1
    ensures Handle(e, Enter, language, tabSize) == Some(InsertIndentedNewline(e, tabSize))
  {}

  lemma BlockIs(before: string, selected: string, right: string)
    ensures
      var e := Edit(before + selected + right, |before|, |before| + |selected|);
      && (IsIndentOpener(At(e.value, e.start - 1)) <==>
            before != "" && before[|before| - 1] in {'(', '[', '{'})
      && (OpensBlock(e) <==>
            selected == "" && before != "" && right != "" && [before[|before| - 1], right[0]] in {"()", "[]", "{}"})
  {
    var e := Edit(before + selected + right, |before|, |before| + |selected|);
    if before != "" {
      var open := before[|before| - 1];
      assert e.value[|before| - 1] == open;
      if selected == "" && right != "" {
        assert e.value[|before|] == right[0];
        PairIs(open, right[0], '(', ')', "()");
        PairIs(open, right[0], '[', ']', "[]");
        PairIs(open, right[0], '{', '}', "{}");
      }
    }
  }
}
