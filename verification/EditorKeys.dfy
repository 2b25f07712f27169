/** The code editor's key handling: edits of a text and a selection. */
module EditorKeys {
  import opened Verdicts
  import opened Lines
  import opened Arithmetic

  datatype Language = GO | CPP | PYTHON | JAVA

  datatype Key = Tab(shift: bool) | Backspace | Enter | Char(c: char) | OtherKey

  /** The text with the two ends of the selection. */
  datatype Edit = Edit(value: string, start: int, end: int)

  /** What a text area guarantees of its selection. */
  predicate InBounds(e: Edit) {
    0 <= e.start <= e.end <= |e.value|
  }

  // ---- JavaScript's string operations ----

  /** value[i], undefined outside the text. */
  function At(v: string, i: int): Option<char> {
    if 0 <= i < |v| then Some(v[i]) else None
  }

  /** v.slice(i, j) for non-negative ends: empty when the ends cross, cut at the end of the text. */
  function Slice(v: string, i: nat, j: nat): string {
    var hi := if j < |v| then j else |v|;
    if i < hi then v[i..hi] else ""
  }

  function Repeat(n: nat): (r: string)
    ensures |r| == n && forall k :: 0 <= k < n ==> r[k] == ' '
  {
    if n == 0 then "" else Repeat(n - 1) + " "
  }

  /** v.lastIndexOf('\n', from): the last line feed at or before from, or -1. */
  function LastBreak(v: string, from: int): (r: int)
    requires from < |v| || |v| == 0
    ensures -1 <= r <= from || (r == -1 && from < -1)
    ensures r >= 0 ==> r < |v| && v[r] == '\n'
    ensures forall k :: r < k <= from && 0 <= k < |v| ==> v[k] != '\n'
    decreases from + 1
  {
    if from < 0 || |v| == 0 then -1
    else if v[from] == '\n' then from
    else LastBreak(v, from - 1)
  }

  /** v.indexOf('\n', from), or the length of the text where the source would get -1. */
  function NextBreak(v: string, from: nat): (r: nat)
    requires from <= |v|
    ensures from <= r <= |v|
    ensures r < |v| ==> v[r] == '\n'
    ensures forall k :: from <= k < r ==> v[k] != '\n'
    decreases |v| - from
  {
    if from == |v| || v[from] == '\n' then from else NextBreak(v, from + 1)
  }

  // ---- Character classes ----

  function PairOf(c: char): Option<char> {
    match c
    case '(' => Some(')')
    case '[' => Some(']')
    case '{' => Some('}')
    case '"' => Some('"')
    case '\'' => Some('\'')
    case '`' => Some('`')
    case _ => None
  }

  predicate IsQuote(c: char) {
    c == '"' || c == '\'' || c == '`'
  }

  predicate IsClosing(c: char) {
    c == ')' || c == ']' || c == '}' || IsQuote(c)
  }

  predicate IsIndentOpener(c: Option<char>) {
    c == Some('{') || c == Some('(') || c == Some('[')
  }

  predicate HasAngles(language: Language) {
    language.CPP? || language.JAVA?
  }

  predicate AllBlank(s: string) {
    forall k :: 0 <= k < |s| ==> IsBlank(s[k])
  }

  predicate IsWordEnd(c: char) {
    'A' <= c <= 'Z' || 'a' <= c <= 'z' || '0' <= c <= '9' || c == '_' || c == '>'
  }

  // ---- Auto-closing, type-over and pair deletion ----

  function InsertPair(e: Edit, open: char, close: char): Edit
    requires InBounds(e)
  {
    var before, selected, after := e.value[..e.start], e.value[e.start..e.end], e.value[e.end..];
    Edit(before + [open] + selected + [close] + after, e.start + 1, e.end + 1)
  }

  predicate IsLikelyTemplateStart(v: string, i: int) {
    At(v, i - 1).Some? && IsWordEnd(At(v, i - 1).value)
  }

  function OpeningPair(e: Edit, c: char, language: Language): Option<char> {
    if PairOf(c).Some? then PairOf(c)
    else if c != '<' || !HasAngles(language) then None
    else if e.start != e.end || IsLikelyTemplateStart(e.value, e.start) then Some('>')
    else None
  }

  /** The number of backslashes right before an index. */
  function Slashes(v: string, index: nat): nat
    requires index <= |v|
  {
    if index > 0 && v[index - 1] == '\\' then 1 + Slashes(v, index - 1) else 0
  }

  method IsEscapedAt(v: string, index: nat) returns (escaped: bool)
    requires index <= |v|
    ensures escaped == (Slashes(v, index) % 2 == 1)
  {
    var slashCount, i := 0, index - 1;
    while i >= 0 && v[i] == '\\'
      invariant -1 <= i < index
      invariant slashCount + Slashes(v, i + 1) == Slashes(v, index)
    {
      slashCount := slashCount + 1;
      i := i - 1;
    }
    return slashCount % 2 == 1;
  }

  predicate ShouldSkip(e: Edit, c: char, language: Language)
    requires InBounds(e)
  {
    && e.start == e.end
    && At(e.value, e.start) == Some(c)
    && (c == '>' ==> HasAngles(language))
    && (IsQuote(c) ==> Slashes(e.value, e.start) % 2 == 0)
  }

  /** At the end of a text both `next` and the expected closer can be undefined, and then compare equal. */
  function DeletePair(e: Edit, language: Language): Option<Edit>
    requires InBounds(e)
  {
    if e.start != e.end || e.start == 0 then None
    else
      var previous := e.value[e.start - 1];
      var expected :=
        if previous == '<' && HasAngles(language) && IsLikelyTemplateStart(e.value, e.start - 1) then Some('>')
        else PairOf(previous);
      if expected != At(e.value, e.start) then None
      else Some(Edit(e.value[..e.start - 1] + Slice(e.value, e.start + 1, |e.value|), e.start - 1, e.start - 1))
  }

  // ---- Backspace to the previous tab stop ----

  function NextColumn(column: nat, c: char, tabSize: nat): (r: nat)
    requires tabSize >= 1
    ensures c != '\t' ==> r == column + 1
    ensures c == '\t' ==> column < r <= column + tabSize && r % tabSize == 0
  {
    TabStopAfter(column, tabSize);
    if c == '\t' then column + tabSize - column % tabSize else column + 1
  }

  lemma TabStopAfter(column: nat, tabSize: nat)
    requires tabSize >= 1
    ensures (column + tabSize - column % tabSize) % tabSize == 0
  {
    var q := column / tabSize;
    assert column == q * tabSize + column % tabSize;
    assert column + tabSize - column % tabSize == (q + 1) * tabSize;
    QuotientUnique((q + 1) * tabSize, tabSize, q + 1, 0);
  }

  /** The visual column after a prefix. */
  function Column(prefix: string, tabSize: nat): nat
    requires tabSize >= 1
  {
    if prefix == "" then 0
    else NextColumn(Column(prefix[..|prefix| - 1], tabSize), prefix[|prefix| - 1], tabSize)
  }

  method VisualColumns(prefix: string, tabSize: nat) returns (columns: seq<nat>)
    requires tabSize >= 1
    ensures |columns| == |prefix| + 1
    ensures forall k :: 0 <= k <= |prefix| ==> columns[k] == Column(prefix[..k], tabSize)
  {
    columns := [0];
    for i := 0 to |prefix|
      invariant |columns| == i + 1
      invariant forall k :: 0 <= k <= i ==> columns[k] == Column(prefix[..k], tabSize)
    {
      assert prefix[..i + 1][..i] == prefix[..i];
      columns := columns + [NextColumn(columns[|columns| - 1], prefix[i], tabSize)];
    }
  }

  /** The last tab stop before a column. */
  function TabStopBefore(column: nat, tabSize: nat): int
    requires tabSize >= 1 && column >= 1
  {
    (column - 1) / tabSize * tabSize
  }

  /** The greatest offset, at most `offset`, whose column is not beyond the target. */
  function OffsetAt(prefix: string, tabSize: nat, target: int, offset: nat): (r: nat)
    requires tabSize >= 1 && offset <= |prefix|
    ensures r <= offset
  {
    if offset > 0 && Column(prefix[..offset], tabSize) > target
    then OffsetAt(prefix, tabSize, target, offset - 1)
    else offset
  }

  /** Where the line of a caret starts and ends. */
  function LineStart(v: string, caret: nat): (r: nat)
    requires 1 <= caret <= |v|
    ensures r <= caret
    ensures OneLine(v[r..caret])
    ensures r == 0 || v[r - 1] == '\n'
  {
    LastBreak(v, caret - 1) + 1
  }

  predicate OnBlankLine(v: string, caret: nat)
    requires 1 <= caret <= |v|
  {
    AllBlank(v[LineStart(v, caret)..NextBreak(v, caret)])
  }

  function DeleteIndentation(e: Edit, tabSize: nat): Option<Edit>
    requires InBounds(e) && tabSize >= 1
  {
    if e.start != e.end || e.start == 0 then None
    else if !OnBlankLine(e.value, e.start) || e.start == LineStart(e.value, e.start) then None
    else
      var lineStart := LineStart(e.value, e.start);
      var prefix := e.value[lineStart..e.start];
      var target := TabStopBefore(MoreThanZero(prefix, tabSize), tabSize);
      var deleteStart := lineStart + OffsetAt(prefix, tabSize, target, |prefix|);
      Some(Edit(e.value[..deleteStart] + e.value[e.start..], deleteStart, deleteStart))
  }

  /** The column after a non-empty prefix, which is positive. */
  function MoreThanZero(prefix: string, tabSize: nat): (c: nat)
    requires tabSize >= 1 && prefix != ""
    ensures c == Column(prefix, tabSize) && c >= 1
  {
    ColumnGrows(prefix, tabSize);
    Column(prefix, tabSize)
  }

  /** Every character moves the column right, a tab by at most tabSize. */
  lemma ColumnGrows(prefix: string, tabSize: nat)
    requires tabSize >= 1 && prefix != ""
    ensures Column(prefix[..|prefix| - 1], tabSize) < Column(prefix, tabSize) <=
            Column(prefix[..|prefix| - 1], tabSize) + tabSize
  {
    var c := Column(prefix[..|prefix| - 1], tabSize);
    assert 0 <= c % tabSize < tabSize;
  }

  method DeleteIndentationToPreviousTabStop(e: Edit, tabSize: nat) returns (r: Option<Edit>)
    requires InBounds(e) && tabSize >= 1
    ensures r == DeleteIndentation(e, tabSize)
  {
    if e.start != e.end || e.start == 0 {
      return None;
    }
    var lineStart, lineEnd := LineStart(e.value, e.start), NextBreak(e.value, e.start);
    if !AllBlank(e.value[lineStart..lineEnd]) || e.start == lineStart {
      return None;
    }
    var prefix := e.value[lineStart..e.start];
    var columns := VisualColumns(prefix, tabSize);
    assert prefix[..|prefix|] == prefix;
    var column := columns[|columns| - 1];
    assert column == MoreThanZero(prefix, tabSize);
    var target := TabStopBefore(column, tabSize);
    var deleteOffset := |prefix|;
    while deleteOffset > 0 && columns[deleteOffset] > target
      invariant 0 <= deleteOffset <= |prefix|
      invariant OffsetAt(prefix, tabSize, target, deleteOffset) == OffsetAt(prefix, tabSize, target, |prefix|)
    {
      deleteOffset := deleteOffset - 1;
    }
    var deleteStart := lineStart + deleteOffset;
    return Some(Edit(e.value[..deleteStart] + e.value[e.start..], deleteStart, deleteStart));
  }

  // ---- Enter ----

  /** The longest run of blanks at the start. */
  function LineIndent(s: string): (r: string)
    ensures AllBlank(r) && r <= s
    ensures |r| < |s| ==> !IsBlank(s[|r|])
  {
    if s != "" && IsBlank(s[0]) then [s[0]] + LineIndent(s[1..]) else ""
  }

  /** Between an opener and its closer the caret gets a line of its own. */
  predicate OpensBlock(e: Edit) {
    var previous := At(e.value, e.start - 1);
    e.start == e.end && IsIndentOpener(previous) && PairOf(previous.value) == At(e.value, e.end)
  }

  /** Where the line of the selection start begins. */
  function CurrentLineStart(e: Edit): (r: nat)
    requires InBounds(e)
    ensures r <= e.start && OneLine(e.value[r..e.start]) && (r == 0 || e.value[r - 1] == '\n')
  {
    LastBreak(e.value[..e.start], e.start - 1) + 1
  }

  /** The indentation of the line up to the selection. */
  function CurrentIndent(e: Edit): (r: string)
    requires InBounds(e)
    ensures AllBlank(r)
  {
    LineIndent(e.value[CurrentLineStart(e)..e.start])
  }

  function InsertIndentedNewline(e: Edit, tabSize: nat): Edit
    requires InBounds(e)
  {
    var before, after, current := e.value[..e.start], e.value[e.end..], CurrentIndent(e);
    var inner := current + if IsIndentOpener(At(e.value, e.start - 1)) then Repeat(tabSize) else "";
    var inserted := "\n" + inner + if OpensBlock(e) then "\n" + current else "";
    var caret := e.start + 1 + |inner|;
    Edit(before + inserted + after, caret, caret)
  }

  // ---- Tab and Shift+Tab ----

  /** `getSelectedLineRange`. */
  function RangeStart(e: Edit): (r: nat)
    requires InBounds(e)
  {
    if e.value == "" then 0
    else LastBreak(e.value, if e.start == 0 then 0 else e.start - 1) + 1
  }

  function RangeEnd(e: Edit): (r: nat)
    requires InBounds(e)
    ensures r <= |e.value|
  {
    NextBreak(e.value, if e.end > e.start && e.value[e.end - 1] == '\n' then e.end - 1 else e.end)
  }

  function IndentAll(lines: seq<string>, indent: string): (r: seq<string>)
    ensures |r| == |lines|
    ensures forall k :: 0 <= k < |lines| ==> r[k] == indent + lines[k]
  {
    if lines == [] then [] else [indent + lines[0]] + IndentAll(lines[1..], indent)
  }

  function IndentSelection(e: Edit, tabSize: nat): Edit
    requires InBounds(e)
  {
    var indent := Repeat(tabSize);
    if e.start == e.end then
      Edit(e.value[..e.start] + indent + e.value[e.end..], e.start + tabSize, e.start + tabSize)
    else
      var lines := Split(Slice(e.value, RangeStart(e), RangeEnd(e)));
      Edit(e.value[..RangeStart(e)] + Join(IndentAll(lines, indent)) + e.value[RangeEnd(e)..],
           e.start + tabSize, e.end + tabSize * |lines|)
  }

  /** How many leading spaces of a line, up to a limit. */
  function LeadingSpaces(line: string, limit: nat): (r: nat)
    ensures r <= |line| && r <= limit
    ensures forall k :: 0 <= k < r ==> line[k] == ' '
    ensures r < limit && r < |line| ==> line[r] != ' '
  {
    if limit > 0 && line != "" && line[0] == ' ' then 1 + LeadingSpaces(line[1..], limit - 1) else 0
  }

  /** One tab, or else as many leading spaces as there are, up to the tab size. */
  function OutdentCount(line: string, tabSize: nat): (r: nat)
    ensures r <= |line|
    ensures line != "" && line[0] == '\t' ==> r == 1
    ensures line == "" || line[0] != '\t' ==>
              && r <= tabSize && (forall k :: 0 <= k < r ==> line[k] == ' ')
              && (r < tabSize && r < |line| ==> line[r] != ' ')
  {
    if line != "" && line[0] == '\t' then 1 else LeadingSpaces(line, tabSize)
  }

  method CountOutdentChars(line: string, tabSize: nat) returns (r: nat)
    ensures r == OutdentCount(line, tabSize)
  {
    if line != "" && line[0] == '\t' {
      return 1;
    }
    var spaces := 0;
    while spaces < (if tabSize < |line| then tabSize else |line|) && line[spaces] == ' '
      invariant spaces <= tabSize && spaces <= |line|
      invariant spaces + LeadingSpaces(line[spaces..], tabSize - spaces) == LeadingSpaces(line, tabSize)
    {
      assert line[spaces..][1..] == line[spaces + 1..];
      spaces := spaces + 1;
    }
    return spaces;
  }

  function OutdentAll(lines: seq<string>, tabSize: nat): (r: seq<string>)
    ensures |r| == |lines|
    ensures forall k :: 0 <= k < |lines| ==> r[k] == lines[k][OutdentCount(lines[k], tabSize)..]
  {
    if lines == [] then [] else [lines[0][OutdentCount(lines[0], tabSize)..]] + OutdentAll(lines[1..], tabSize)
  }

  function Removed(lines: seq<string>, tabSize: nat): nat {
    if lines == [] then 0 else Removed(lines[..|lines| - 1], tabSize) + OutdentCount(lines[|lines| - 1], tabSize)
  }

  function OutdentSelection(e: Edit, tabSize: nat): Edit
    requires InBounds(e)
  {
    var rangeStart, rangeEnd := RangeStart(e), RangeEnd(e);
    var lines := Split(Slice(e.value, rangeStart, rangeEnd));
    var removedBeforeStart :=
      if e.start > rangeStart then Min(OutdentCount(lines[0], tabSize), e.start - rangeStart) else 0;
    Edit(e.value[..rangeStart] + Join(OutdentAll(lines, tabSize)) + e.value[rangeEnd..],
         e.start - removedBeforeStart,
         Max(e.start - removedBeforeStart, e.end - Removed(lines, tabSize)))
  }

  /** The loop over the selected lines: each line's removal, the lines without them, and their total. */
  method OutdentLines(lines: seq<string>, tabSize: nat)
    returns (removals: seq<nat>, outdented: seq<string>, totalRemoved: nat)
    ensures |removals| == |lines| && forall k :: 0 <= k < |lines| ==> removals[k] == OutdentCount(lines[k], tabSize)
    ensures outdented == OutdentAll(lines, tabSize)
    ensures totalRemoved == Removed(lines, tabSize)
  {
    removals, outdented, totalRemoved := [], [], 0;
    for i := 0 to |lines|
      invariant |removals| == |outdented| == i
      invariant forall k :: 0 <= k < i ==> removals[k] == OutdentCount(lines[k], tabSize)
      invariant forall k :: 0 <= k < i ==> outdented[k] == lines[k][OutdentCount(lines[k], tabSize)..]
      invariant totalRemoved == Removed(lines[..i], tabSize)
    {
      var removal := CountOutdentChars(lines[i], tabSize);
      removals := removals + [removal];
      outdented := outdented + [lines[i][removal..]];
      assert lines[..i + 1][..i] == lines[..i];
      totalRemoved := totalRemoved + removal;
    }
    assert lines[..|lines|] == lines;
  }

  method Outdent(e: Edit, tabSize: nat) returns (r: Edit)
    requires InBounds(e)
    ensures r == OutdentSelection(e, tabSize)
  {
    var rangeStart, rangeEnd := RangeStart(e), RangeEnd(e);
    var lines := Split(Slice(e.value, rangeStart, rangeEnd));
    var removals, outdented, totalRemoved := OutdentLines(lines, tabSize);
    var removedBeforeStart := if e.start > rangeStart then Min(removals[0], e.start - rangeStart) else 0;
    r := Edit(e.value[..rangeStart] + Join(outdented) + e.value[rangeEnd..],
              e.start - removedBeforeStart,
              Max(e.start - removedBeforeStart, e.end - totalRemoved));
  }

  // ---- The handler ----

  /** The edit a key makes; None leaves the key to the browser. */
  function Handle(e: Edit, key: Key, language: Language, tabSize: nat): Option<Edit>
    requires InBounds(e) && tabSize >= 1
  {
    match key
    case Tab(shift) => Some(if shift then OutdentSelection(e, tabSize) else IndentSelection(e, tabSize))
    case Backspace =>
      var indentation := DeleteIndentation(e, tabSize);
      if indentation.Some? then indentation else DeletePair(e, language)
    case Enter => Some(InsertIndentedNewline(e, tabSize))
    case Char(c) =>
      if (IsClosing(c) || c == '>') && ShouldSkip(e, c, language) then Some(Edit(e.value, e.start + 1, e.start + 1))
      else
        var close := OpeningPair(e, c, language);
        if close.Some? then Some(InsertPair(e, c, close.value)) else None
    case OtherKey => None
  }

  method HandleCodeEditorKeyDown(e: Edit, key: Key, modified: bool, language: Language, tabSize: nat)
    returns (edit: Option<Edit>)
    requires InBounds(e) && tabSize >= 1
    ensures edit == if modified then None else Handle(e, key, language, tabSize)
  {
    edit := None;
    if modified {
      return;
    }
    match key {
      case Tab(shift) =>
        if shift {
          var outdented := Outdent(e, tabSize);
          edit := Some(outdented);
        } else {
          edit := Some(IndentSelection(e, tabSize));
        }
      case Backspace =>
        edit := DeleteIndentationToPreviousTabStop(e, tabSize);
        if edit.None? {
          edit := DeletePair(e, language);
        }
      case Enter =>
        edit := Some(InsertIndentedNewline(e, tabSize));
      case Char(c) =>
        var escaped := IsEscapedAt(e.value, e.start);
        if (IsClosing(c) || c == '>') && e.start == e.end && At(e.value, e.start) == Some(c)
           && !(c == '>' && !HasAngles(language)) && !(IsQuote(c) && escaped) {
          edit := Some(Edit(e.value, e.start + 1, e.start + 1));
        } else {
          var close := OpeningPair(e, c, language);
          if close.Some? {
            edit := Some(InsertPair(e, c, close.value));
          }
        }
      case OtherKey =>
    }
  }
}
