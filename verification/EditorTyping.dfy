/** Typing with auto-closed and typed-over brackets, and deleting indentation by tab stops. */
module EditorTyping {
  import opened Verdicts
  import opened Lines
  import opened Arithmetic
  import opened EditorKeys

  // ---- Typing words ----

  /** Typing one character: the handler's edit, or the browser's plain insertion. */
  function Type(e: Edit, c: char, language: Language, tabSize: nat): Edit
    requires InBounds(e) && tabSize >= 1
  {
    match Handle(e, Char(c), language, tabSize)
    case Some(edit) => edit
    case None => Edit(e.value[..e.start] + [c] + e.value[e.end..], e.start + 1, e.start + 1)
  }

  lemma TypeInBounds(e: Edit, c: char, language: Language, tabSize: nat)
    requires InBounds(e) && tabSize >= 1
    ensures InBounds(Type(e, c, language, tabSize))
  {}

  function TypeWord(e: Edit, w: string, language: Language, tabSize: nat): Edit
    requires InBounds(e) && tabSize >= 1
    decreases |w|
  {
    if w == "" then e
    else
      TypeInBounds(e, w[0], language, tabSize);
      TypeWord(Type(e, w[0], language, tabSize), w[1..], language, tabSize)
  }

  // ---- The characters, written out ----

  predicate IsPair(open: char, close: char) {
    [open, close] in {"()", "[]", "{}", "\"\"", "''", "``"}
  }

  predicate IsOpener(c: char) {
    c in {'(', '[', '{', '"', '\'', '`'}
  }

  /** C++ and Java have angle brackets. */
  predicate IsAngled(language: Language) {
    language in {CPP, JAVA}
  }

  /** A letter, a digit, an underscore or a closing angle bracket. */
  predicate EndsWord(c: char) {
    var code := c as int;
    65 <= code <= 90 || 97 <= code <= 122 || 48 <= code <= 57 || code == 95 || code == 62
  }

  lemma Characters(c: char, d: char, language: Language)
    ensures PairOf(c) == Some(d) <==> IsPair(c, d)
    ensures PairOf(c).Some? <==> IsOpener(c)
    ensures HasAngles(language) <==> IsAngled(language)
    ensures IsWordEnd(c) <==> EndsWord(c)
  {
    PairIs(c, d, '(', ')', "()");
    PairIs(c, d, '[', ']', "[]");
    PairIs(c, d, '{', '}', "{}");
    PairIs(c, d, '"', '"', "\"\"");
    PairIs(c, d, '\'', '\'', "''");
    PairIs(c, d, '`', '`', "``");
  }

  lemma PairIs(c: char, d: char, open: char, close: char, pair: string)
    requires pair == [open, close]
    ensures [c, d] == pair <==> c == open && d == close
  {
    if [c, d] == pair {
      assert [c, d][0] == pair[0] && [c, d][1] == pair[1];
    }
  }

  /** The key steps over the next character instead of inserting one. */
  predicate StepsOver(left: string, rest: string, c: char, language: Language) {
    && (IsClosing(c) || c == '>')
    && rest != "" && rest[0] == c
    && (c == '>' ==> HasAngles(language))
    && (IsQuote(c) ==> Slashes(left, |left|) % 2 == 0)
  }

  /** The closer a key brings with it. */
  function Brings(left: string, c: char, language: Language): Option<char> {
    if PairOf(c).Some? then PairOf(c)
    else if c == '<' && HasAngles(language) && left != "" && IsWordEnd(left[|left| - 1]) then Some('>')
    else None
  }

  /** What stands behind the caret: the closers still owed, innermost first, and what is left of the old text. */
  datatype Behind = Behind(owed: string, after: string) {
    function Text(): string {
      owed + after
    }
  }

  /** One more key: an opener adds a closer, a key that steps over the next character pays a closer or passes a
      character of the old text, any other key changes nothing behind the caret. */
  function AfterKey(left: string, b: Behind, c: char, language: Language): Behind {
    if StepsOver(left, b.Text(), c, language) then
      if b.owed == "" then Behind("", b.after[1..]) else Behind(b.owed[1..], b.after)
    else match Brings(left, c, language)
      case Some(close) => Behind([close] + b.owed, b.after)
      case None => b
  }

  function AfterWord(left: string, b: Behind, w: string, language: Language): Behind
    decreases |w|
  {
    if w == "" then b else AfterWord(left + [w[0]], AfterKey(left, b, w[0], language), w[1..], language)
  }

  lemma {:induction false} SlashesOfPrefix(left: string, rest: string, n: nat)
    requires n <= |left|
    ensures Slashes(left + rest, n) == Slashes(left, n)
  {
    if n > 0 {
      SlashesOfPrefix(left, rest, n - 1);
      assert (left + rest)[n - 1] == left[n - 1];
    }
  }

  /** The handler's two tests at a caret, in terms of the text before and behind it. */
  lemma CaretTests(left: string, rest: string, c: char, language: Language)
    ensures
      var e := Edit(left + rest, |left|, |left|);
      && InBounds(e)
      && ((IsClosing(c) || c == '>') && ShouldSkip(e, c, language) <==> StepsOver(left, rest, c, language))
      && OpeningPair(e, c, language) == Brings(left, c, language)
  {
    var v := left + rest;
    SlashesOfPrefix(left, rest, |left|);
    assert rest != "" ==> v[|left|] == rest[0];
    assert left != "" ==> v[|left| - 1] == left[|left| - 1];
  }

  lemma TypeOver(left: string, rest: string, c: char, language: Language, tabSize: nat)
    requires tabSize >= 1 && StepsOver(left, rest, c, language)
    ensures Type(Edit(left + rest, |left|, |left|), c, language, tabSize) ==
            Edit(left + [c] + rest[1..], |left| + 1, |left| + 1)
  {
    hide StepsOver, OpeningPair, ShouldSkip;
    CaretTests(left, rest, c, language);
    StepsOverNext(left, rest, c, language);
    assert left + rest == left + [c] + rest[1..];
  }

  lemma StepsOverNext(left: string, rest: string, c: char, language: Language)
    requires StepsOver(left, rest, c, language)
    ensures rest != "" && rest[0] == c
  {}

  lemma TypePair(left: string, rest: string, c: char, language: Language, tabSize: nat)
    requires tabSize >= 1 && !StepsOver(left, rest, c, language) && Brings(left, c, language).Some?
    ensures Type(Edit(left + rest, |left|, |left|), c, language, tabSize) ==
            Edit(left + [c] + ([Brings(left, c, language).value] + rest), |left| + 1, |left| + 1)
  {
    hide StepsOver, Brings, OpeningPair, ShouldSkip;
    CaretTests(left, rest, c, language);
    var v, close := left + rest, Brings(left, c, language).value;
    assert v[..|left|] == left && v[|left|..] == rest && v[|left|..|left|] == "";
    assert left + [c] + "" + [close] + rest == left + [c] + ([close] + rest);
  }

  lemma TypePlain(left: string, rest: string, c: char, language: Language, tabSize: nat)
    requires tabSize >= 1 && !StepsOver(left, rest, c, language) && Brings(left, c, language).None?
    ensures Type(Edit(left + rest, |left|, |left|), c, language, tabSize) ==
            Edit(left + [c] + rest, |left| + 1, |left| + 1)
  {
    hide StepsOver, Brings, OpeningPair, ShouldSkip;
    CaretTests(left, rest, c, language);
    var v := left + rest;
    assert v[..|left|] == left && v[|left|..] == rest;
  }

  /** One key: the text before the caret grows by exactly that key. */
  lemma TypeStep(left: string, b: Behind, c: char, language: Language, tabSize: nat)
    requires tabSize >= 1
    ensures Type(Edit(left + b.Text(), |left|, |left|), c, language, tabSize) ==
            Edit(left + [c] + AfterKey(left, b, c, language).Text(), |left| + 1, |left| + 1)
  {
    hide StepsOver, Brings, Type;
    var rest := b.Text();
    if StepsOver(left, rest, c, language) {
      TypeOver(left, rest, c, language, tabSize);
      StepsOverNext(left, rest, c, language);
      assert rest[1..] == AfterKey(left, b, c, language).Text();
    } else if Brings(left, c, language).Some? {
      TypePair(left, rest, c, language, tabSize);
      var close := Brings(left, c, language).value;
      assert [close] + rest == [close] + b.owed + b.after;
    } else {
      TypePlain(left, rest, c, language, tabSize);
    }
  }

  /** Typing any word, in any language, between any two texts: the caret ends right behind exactly that word, and behind
      it stand the closers still owed and what is left of the old text. */
  lemma {:induction false} TypingInserts(left: string, b: Behind, w: string, language: Language, tabSize: nat)
    requires tabSize >= 1
    ensures TypeWord(Edit(left + b.Text(), |left|, |left|), w, language, tabSize) ==
            Edit(left + w + AfterWord(left, b, w, language).Text(), |left| + |w|, |left| + |w|)
    decreases |w|
  {
    hide AfterKey, Type;
    if w == "" {
      assert left + w == left;
    } else {
      TypeStep(left, b, w[0], language, tabSize);
      TypingInserts(left + [w[0]], AfterKey(left, b, w[0], language), w[1..], language, tabSize);
      assert left + [w[0]] + w[1..] == left + w;
    }
  }

  /** The characters of a stand in w in this order. */
  predicate Subsequence(a: string, w: string) {
    a == "" || (w != "" && ((a[0] == w[0] && Subsequence(a[1..], w[1..])) || Subsequence(a, w[1..])))
  }

  lemma {:induction false} SubsequenceIsShorter(a: string, w: string)
    requires Subsequence(a, w)
    ensures |a| <= |w|
    decreases |w|
  {
    if a != "" {
      if a[0] == w[0] && Subsequence(a[1..], w[1..]) {
        SubsequenceIsShorter(a[1..], w[1..]);
      } else {
        SubsequenceIsShorter(a, w[1..]);
      }
    }
  }

  /** Typing never changes the old text but by stepping over its beginning, which is then a subsequence of the word. */
  lemma {:induction false} OldTextKept(left: string, b: Behind, w: string, language: Language) returns (n: nat)
    ensures n <= |b.after| && n <= |w| && AfterWord(left, b, w, language).after == b.after[n..]
    ensures Subsequence(b.after[..n], w)
    decreases |w|
  {
    hide StepsOver, Brings;
    if w == "" {
      n := 0;
    } else {
      var c, next := w[0], AfterKey(left, b, w[0], language);
      n := OldTextKept(left + [c], next, w[1..], language);
      if next.after != b.after {
        StepsOverNext(left, b.Text(), c, language);
        n := n + 1;
        assert b.after[..n][1..] == next.after[..n - 1];
      }
      SubsequenceIsShorter(b.after[..n], w);
    }
  }

  // ---- One key, written out ----

  function Backslashes(n: nat): string {
    seq(n, _ => '\\')
  }

  lemma {:induction false} CountsBackslashes(head: string, n: nat)
    requires head == "" || head[|head| - 1] != '\\'
    ensures Slashes(head + Backslashes(n), |head| + n) == n
  {
    var left := head + Backslashes(n);
    if n > 0 {
      assert left[|head| + n - 1] == '\\';
      CountsBackslashes(head, n - 1);
      var shorter := head + Backslashes(n - 1);
      assert left == shorter + "\\";
      SlashesOfPrefix(shorter, "\\", |head| + n - 1);
    }
  }

  function CloserOf(c: char): char {
    match c case '(' => ')' case '[' => ']' case '{' => '}' case '<' => '>' case _ => c
  }

  /** What a character does at a caret behind n backslashes: brackets come in pairs, a closer steps over itself, a quote
      steps over itself behind an even number of backslashes and else comes in a pair, angle brackets count only
      in C++ and Java, the opening one behind a word, and all else is left to the browser. */
  function Typed(head: string, n: nat, right: string, c: char, language: Language): Option<Edit> {
    var left := head + Backslashes(n);
    var here := |left| + 1;
    var over := if right != "" && right[0] == c then Some(Edit(left + right, here, here)) else None;
    var pair := Some(Edit(left + [c] + ([CloserOf(c)] + right), here, here));
    if c in {'(', '[', '{'} then pair
    else if c in {')', ']', '}'} then over
    else if c in {'"', '\'', '`'} then (if over.Some? && n % 2 == 0 then over else pair)
    else if c == '>' && language in {CPP, JAVA} then over
    else if c == '<' && language in {CPP, JAVA} && left != "" && EndsWord(left[|left| - 1]) then pair
    else None
  }

  lemma TypedExactly(head: string, n: nat, right: string, c: char, language: Language, tabSize: nat)
    requires tabSize >= 1 && (head == "" || head[|head| - 1] != '\\')
    ensures
      var left := head + Backslashes(n);
      Handle(Edit(left + right, |left|, |left|), Char(c), language, tabSize) == Typed(head, n, right, c, language)
  {
    hide Slashes, ShouldSkip, OpeningPair;
    var left := head + Backslashes(n);
    var e := Edit(left + right, |left|, |left|);
    CaretTests(left, right, c, language);
    CountsBackslashes(head, n);
    if StepsOver(left, right, c, language) {
      assert left + right == e.value;
    } else if Brings(left, c, language).Some? {
      var close := Brings(left, c, language).value;
      assert e.value[..|left|] == left && e.value[|left|..] == right && e.value[|left|..|left|] == "";
      assert left + [c] + "" + [close] + right == left + [c] + ([close] + right);
    }
  }

  // ---- Words of brackets ----

  function BracketOf(c: char): Option<char> {
    match c
    case '(' => Some(')')
    case '[' => Some(']')
    case '{' => Some('}')
    case _ => None
  }

  predicate IsBracketEnd(c: char) {
    c == ')' || c == ']' || c == '}'
  }

  /** A character of its own key: no bracket, quote or angle, and not what Enter or Tab stand for. */
  predicate IsOrdinary(c: char) {
    BracketOf(c).None? && !IsBracketEnd(c) && !IsQuote(c) && c != '<' && c != '>' && c != '\n' && c != '\t'
  }

  /** The closers a bracket word still needs; None if a closer does not match. */
  function Needs(w: string, stack: string): Option<string> {
    if w == "" then Some(stack)
    else if BracketOf(w[0]).Some? then Needs(w[1..], [BracketOf(w[0]).value] + stack)
    else if IsBracketEnd(w[0]) then (if stack != "" && stack[0] == w[0] then Needs(w[1..], stack[1..]) else None)
    else if IsOrdinary(w[0]) then Needs(w[1..], stack)
    else None
  }

  predicate WellNested(w: string) {
    Needs(w, "") == Some("")
  }

  lemma BracketKey(left: string, b: Behind, c: char, language: Language)
    ensures BracketOf(c).Some? ==> AfterKey(left, b, c, language) == Behind([BracketOf(c).value] + b.owed, b.after)
    ensures IsBracketEnd(c) && b.owed != "" && b.owed[0] == c ==>
            AfterKey(left, b, c, language) == Behind(b.owed[1..], b.after)
    ensures IsOrdinary(c) ==> AfterKey(left, b, c, language) == b
  {
    assert b.owed != "" ==> b.Text()[0] == b.owed[0];
  }

  /** A bracket word owes what it needs, whatever surrounds it. */
  lemma {:induction false} BracketsOweNeeds(left: string, b: Behind, w: string, language: Language)
    requires Needs(w, b.owed).Some?
    ensures AfterWord(left, b, w, language) == Behind(Needs(w, b.owed).value, b.after)
    decreases |w|
  {
    hide AfterKey;
    if w != "" {
      BracketKey(left, b, w[0], language);
      BracketsOweNeeds(left + [w[0]], AfterKey(left, b, w[0], language), w[1..], language);
    }
  }

  /** A well-nested word ends up exactly as typed, whatever surrounds the caret. */
  lemma WellNestedTyping(left: string, right: string, w: string, language: Language, tabSize: nat)
    requires tabSize >= 1 && WellNested(w)
    ensures TypeWord(Edit(left + right, |left|, |left|), w, language, tabSize) ==
            Edit(left + w + right, |left| + |w|, |left| + |w|)
  {
    hide AfterWord, Needs, TypeWord;
    var b := Behind("", right);
    BracketsOweNeeds(left, b, w, language);
    TypingInserts(left, b, w, language, tabSize);
    assert "" + right == right;
  }

  // ---- Backspace right after an auto-inserted pair ----

  /** A visible character before the caret keeps Backspace from treating the line as indentation. */
  lemma NotIndentation(left: string, c: char, rest: string, tabSize: nat)
    requires tabSize >= 1 && !IsBlank(c) && c != '\n'
    ensures DeleteIndentation(Edit(left + [c] + rest, |left| + 1, |left| + 1), tabSize).None?
  {
    var v, caret := left + [c] + rest, |left| + 1;
    var from, to := LineStart(v, caret), NextBreak(v, caret);
    assert v[|left|] == c;
    if from < caret {
      assert v[from..to][|left| - from] == c;
    }
  }

  /** Deleting a pair with its opener before the caret and its closer behind. */
  lemma DeletesPair(left: string, c: char, close: char, right: string, language: Language)
    requires OpeningPair(Edit(left + right, |left|, |left|), c, language) == Some(close)
    ensures DeletePair(Edit(left + [c] + ([close] + right), |left| + 1, |left| + 1), language) ==
            Some(Edit(left + right, |left|, |left|))
  {
    var v := left + [c] + ([close] + right);
    assert v[|left|] == c && v[|left| + 1] == close;
    assert v[..|left|] == left && v[|left| + 2..] == right;
    assert Slice(v, |left| + 2, |v|) == right;
    assert |left| > 0 ==> v[|left| - 1] == (left + right)[|left| - 1];
  }

  /** Whenever a key auto-inserts a pair at a caret, angle brackets included, Backspace restores text and caret. */
  lemma BackspaceUndoesPair(left: string, right: string, c: char, language: Language, tabSize: nat)
    requires tabSize >= 1
    requires
      var e := Edit(left + right, |left|, |left|);
      OpeningPair(e, c, language).Some? && !((IsClosing(c) || c == '>') && ShouldSkip(e, c, language))
    ensures
      var e := Edit(left + right, |left|, |left|);
      var typed := Handle(e, Char(c), language, tabSize);
      typed.Some? && InBounds(typed.value) && Handle(typed.value, Backspace, language, tabSize) == Some(e)
  {
    var e := Edit(left + right, |left|, |left|);
    var close := OpeningPair(e, c, language).value;
    var typed := InsertPair(e, c, close);
    assert typed.value == left + [c] + ([close] + right) by {
      assert e.value[..|left|] == left && e.value[|left|..] == right && e.value[|left|..|left|] == "";
      assert left + [c] + "" + [close] + right == left + [c] + ([close] + right);
    }
    NotIndentation(left, c, [close] + right, tabSize);
    DeletesPair(left, c, close, right, language);
  }

  // ---- When the handler takes Backspace ----

  /** The character at an index is an opener that Backspace deletes together with its closer. */
  predicate DeletableOpener(v: string, i: nat, language: Language)
    requires i < |v|
  {
    IsOpener(v[i]) || AngleOpener(v, i, language)
  }

  predicate AngleOpener(v: string, i: nat, language: Language)
    requires i < |v|
  {
    v[i] == '<' && IsAngled(language) && i > 0 && EndsWord(v[i - 1])
  }

  /** The caret stands between an opener and its closer. */
  predicate InsidePair(v: string, caret: nat, language: Language) {
    && 1 <= caret < |v|
    && (IsPair(v[caret - 1], v[caret]) || (AngleOpener(v, caret - 1, language) && v[caret] == '>'))
  }

  /** The caret stands at the end of a text whose last character opens nothing. */
  predicate BehindText(v: string, caret: nat, language: Language) {
    caret == |v| && caret >= 1 && !DeletableOpener(v, caret - 1, language)
  }

  /** Backspace at a caret is the handler's in exactly three cases: in blank indentation it deletes back to the tab
      stop, inside a pair the pair, and at the end of a text exactly the last character. Otherwise it is left to
      the browser. */
  lemma BackspaceExactly(v: string, caret: nat, language: Language, tabSize: nat)
    requires tabSize >= 1 && caret <= |v|
    ensures
      var e := Edit(v, caret, caret);
      var r := Handle(e, Backspace, language, tabSize);
      && (r.Some? <==> InBlankIndentation(e) || InsidePair(v, caret, language) || BehindText(v, caret, language))
      && (InBlankIndentation(e) ==>
            && LineStart(v, caret) <= r.value.start == r.value.end < caret
            && r.value.value == v[..r.value.start] + v[caret..]
            && Column(v[LineStart(v, caret)..r.value.start], tabSize) ==
                 TabStopBefore(CaretColumn(e, tabSize), tabSize))
      && (!InBlankIndentation(e) && InsidePair(v, caret, language) ==>
            r.value == Edit(v[..caret - 1] + v[caret + 1..], caret - 1, caret - 1))
      && (!InBlankIndentation(e) && BehindText(v, caret, language) ==>
            r.value == Edit(v[..caret - 1], caret - 1, caret - 1))
  {
    hide PairOf, HasAngles, IsWordEnd, Column, TabStopBefore, IsPair, IsOpener, IsAngled, EndsWord;
    var e := Edit(v, caret, caret);
    if caret >= 1 {
      Characters(v[caret - 1], if caret < |v| then v[caret] else ' ', language);
    }
    if caret >= 2 {
      Characters(v[caret - 2], ' ', language);
    }
    if InBlankIndentation(e) {
      var c := BackspaceLandsOnStop(e, tabSize, language);
    } else {
      IndentationDeleted(e, tabSize);
      AngleIsNoPair();
    }
  }

  lemma AngleIsNoPair()
    ensures PairOf('<').None?
  {}

  /** Characters stand for UTF-16 code units. The surrogates D800 to DFFF, for which there are no Unicode scalars, are
      written as the scalars 10D800 to 10DFFF. */
  predicate IsHighSurrogate(c: char) {
    0x10D800 <= c as int < 0x10DC00
  }

  predicate IsLowSurrogate(c: char) {
    0x10DC00 <= c as int < 0x10E000
  }

  /** The caret stands behind a surrogate pair, the two code units of one character. */
  predicate BehindSurrogates(v: string, caret: nat)
    requires caret <= |v|
  {
    caret >= 2 && IsHighSurrogate(v[caret - 2]) && IsLowSurrogate(v[caret - 1])
  }

  /** The browser's own Backspace at a caret: it deletes one character. */
  function PlainDeletion(v: string, caret: nat): Edit
    requires caret <= |v|
  {
    var from := if caret == 0 then 0 else if BehindSurrogates(v, caret) then caret - 2 else caret - 1;
    Edit(v[..from] + v[caret..], from, from)
  }

  /** What the user sees of Backspace at a caret: the handler's edit, or the browser's. */
  function Press(v: string, caret: nat, language: Language, tabSize: nat): Edit
    requires tabSize >= 1 && caret <= |v|
  {
    match Handle(Edit(v, caret, caret), Backspace, language, tabSize)
    case Some(edit) => edit
    case None => PlainDeletion(v, caret)
  }

  lemma SurrogateOpensNothing(v: string, i: nat, language: Language)
    requires i < |v| && IsLowSurrogate(v[i])
    ensures !DeletableOpener(v, i, language)
  {}

  /** Outside blank indentation and pairs, the user sees the browser's own deletion, whoever handles the key, exactly
      unless the text ends in a surrogate pair before the caret: of that the handler deletes only the second half. */
  lemma PlainBackspace(v: string, caret: nat, language: Language, tabSize: nat)
    requires tabSize >= 1 && caret <= |v|
    requires !InBlankIndentation(Edit(v, caret, caret)) && !InsidePair(v, caret, language)
    ensures Press(v, caret, language, tabSize) == PlainDeletion(v, caret) <==>
            !(caret == |v| && BehindSurrogates(v, caret))
    ensures caret == |v| && BehindSurrogates(v, caret) ==>
              Press(v, caret, language, tabSize) == Edit(v[..caret - 1], caret - 1, caret - 1)
  {
    hide InBlankIndentation, Handle, DeletableOpener, InsidePair, IsHighSurrogate, IsLowSurrogate;
    BackspaceExactly(v, caret, language, tabSize);
    assert caret == |v| >= 1 ==> v[..caret - 1] + v[caret..] == v[..caret - 1];
    if BehindSurrogates(v, caret) {
      SurrogateOpensNothing(v, caret - 1, language);
    }
  }

  /** The smallest text of which Backspace leaves half a character. */
  lemma HalfCharacterLeft()
    ensures
      var v := "\U{10D83D}\U{10DE00}";
      Press(v, 2, GO, 4) == Edit(v[..1], 1, 1) && PlainDeletion(v, 2) == Edit("", 0, 0)
  {
    hide Handle, InBlankIndentation, DeleteIndentation, Press;
    var v := "\U{10D83D}\U{10DE00}";
    var left, low := v[..1], v[1];
    assert left + [low] + "" == v;
    NotIndentation(left, low, "", 4);
    IndentationDeleted(Edit(v, 2, 2), 4);
    PlainBackspace(v, 2, GO, 4);
  }

  /** The smallest text at whose end the handler deletes the last character itself. */
  lemma BackspaceAtEnd()
    ensures Handle(Edit("a", 1, 1), Backspace, GO, 4) == Some(Edit("", 0, 0))
  {
    hide Handle, InBlankIndentation, DeleteIndentation;
    var v := "a";
    assert "" + ['a'] + "" == v;
    NotIndentation("", 'a', "", 4);
    IndentationDeleted(Edit(v, 1, 1), 4);
    assert BehindText(v, 1, GO);
    BackspaceExactly(v, 1, GO, 4);
    assert v[..0] == "";
  }

  lemma IndentationDeleted(e: Edit, tabSize: nat)
    requires tabSize >= 1 && InBounds(e)
    ensures DeleteIndentation(e, tabSize).Some? <==> InBlankIndentation(e)
  {}

  // ---- Tab stops ----

  lemma MultipleBetween(c: nat, tabSize: nat, stop: int)
    requires tabSize >= 1 && stop % tabSize == 0 && c <= stop < c + tabSize - c % tabSize
    ensures stop == c
  {
    var m := c / tabSize;
    assert c == m * tabSize + c % tabSize;
    QuotientUnique(stop, tabSize, m, stop - m * tabSize);
  }

  /** No character jumps over a tab stop: searching back from beyond a stop lands on it. */
  lemma {:induction false} SearchLands(prefix: string, tabSize: nat, stop: int, offset: nat)
    requires tabSize >= 1 && offset <= |prefix| && stop >= 0 && stop % tabSize == 0
    requires Column(prefix[..offset], tabSize) > stop
    ensures OffsetAt(prefix, tabSize, stop, offset) < offset
    ensures Column(prefix[..OffsetAt(prefix, tabSize, stop, offset)], tabSize) == stop
  {
    assert offset > 0;
    var shorter := prefix[..offset - 1];
    assert prefix[..offset][..offset - 1] == shorter;
    if Column(shorter, tabSize) > stop {
      SearchLands(prefix, tabSize, stop, offset - 1);
    } else if prefix[offset - 1] == '\t' {
      MultipleBetween(Column(shorter, tabSize), tabSize, stop);
    }
  }

  /** The target is the greatest multiple of tabSize below the column. */
  lemma StopBefore(column: nat, tabSize: nat)
    requires tabSize >= 1 && column >= 1
    ensures
      var stop := TabStopBefore(column, tabSize);
      0 <= stop < column <= stop + tabSize && stop % tabSize == 0
  {
    var n := (column - 1) / tabSize;
    assert column - 1 == n * tabSize + (column - 1) % tabSize;
    assert n * tabSize >= 0;
    QuotientUnique(n * tabSize, tabSize, n, 0);
  }

  /** A caret inside the indentation of a blank line. */
  predicate InBlankIndentation(e: Edit) {
    && InBounds(e) && e.start == e.end && e.start >= 1
    && OnBlankLine(e.value, e.start) && e.start > LineStart(e.value, e.start)
  }

  /** A line of blanks and tabs from one index to another, with the caret behind its start. */
  predicate BlankLine(v: string, from: nat, caret: nat, to: nat) {
    && from < caret <= to <= |v|
    && (from == 0 || v[from - 1] == '\n') && (to == |v| || v[to] == '\n')
    && forall k :: from <= k < to ==> v[k] == ' ' || v[k] == '\t'
  }

  lemma BlankIndentationIs(v: string, caret: nat)
    ensures InBlankIndentation(Edit(v, caret, caret)) <==>
            exists from: nat, to: nat :: BlankLine(v, from, caret, to)
  {
    if InBlankIndentation(Edit(v, caret, caret)) {
      var from, to := LineStart(v, caret), NextBreak(v, caret);
      forall k | from <= k < to ensures v[k] == ' ' || v[k] == '\t' {
        assert v[k] == v[from..to][k - from];
      }
      assert BlankLine(v, from, caret, to);
    }
    forall from: nat, to: nat | BlankLine(v, from, caret, to) ensures InBlankIndentation(Edit(v, caret, caret)) {
      assert LineStart(v, caret) == from && NextBreak(v, caret) == to;
    }
  }

  /** The visual column of such a caret. */
  function CaretColumn(e: Edit, tabSize: nat): nat
    requires tabSize >= 1 && InBlankIndentation(e)
  {
    Column(e.value[LineStart(e.value, e.start)..e.start], tabSize)
  }

  /** One Backspace deletes a non-empty span before the caret, back to the greatest tab stop below its column. */
  lemma BackspaceLandsOnStop(e: Edit, tabSize: nat, language: Language) returns (caret: nat)
    requires tabSize >= 1 && InBlankIndentation(e)
    ensures LineStart(e.value, e.start) <= caret < e.start
    ensures Handle(e, Backspace, language, tabSize) == Some(Edit(e.value[..caret] + e.value[e.start..], caret, caret))
    ensures CaretColumn(e, tabSize) >= 1
    ensures Column(e.value[LineStart(e.value, e.start)..caret], tabSize) ==
            TabStopBefore(CaretColumn(e, tabSize), tabSize)
  {
    var lineStart := LineStart(e.value, e.start);
    var prefix := e.value[lineStart..e.start];
    var column := MoreThanZero(prefix, tabSize);
    var stop := TabStopBefore(column, tabSize);
    StopBefore(column, tabSize);
    assert prefix[..|prefix|] == prefix;
    SearchLands(prefix, tabSize, stop, |prefix|);
    var offset := OffsetAt(prefix, tabSize, stop, |prefix|);
    caret := lineStart + offset;
    assert prefix[..offset] == e.value[lineStart..caret];
  }

  lemma LineStartIs(v: string, caret: nat, from: nat)
    requires 1 <= caret <= |v| && from <= caret
    requires forall k :: from <= k < caret ==> v[k] != '\n'
    requires from == 0 || v[from - 1] == '\n'
    ensures LineStart(v, caret) == from
  {
    var r := LineStart(v, caret);
    assert forall k :: r <= k < caret ==> v[r..caret][k - r] == v[k];
  }

  lemma BlankRange(v: string, from: nat, to: nat)
    requires from <= to <= |v|
    ensures AllBlank(v[from..to]) <==> forall k :: from <= k < to ==> IsBlank(v[k])
  {
    assert forall k :: from <= k < to ==> v[from..to][k - from] == v[k];
  }

  /** Cutting blanks out of a blank line leaves a blank line that starts where it did. */
  lemma CutBlankLine(v: string, lineStart: nat, caret: nat, p: nat, lineEnd: nat)
    requires lineStart < caret <= p <= lineEnd <= |v|
    requires forall k :: lineStart <= k < lineEnd ==> IsBlank(v[k])
    requires lineStart == 0 || v[lineStart - 1] == '\n'
    requires lineEnd == |v| || v[lineEnd] == '\n'
    ensures
      var u := v[..caret] + v[p..];
      && LineStart(u, caret) == lineStart
      && forall k :: lineStart <= k < NextBreak(u, caret) ==> IsBlank(u[k])
  {
    var u := v[..caret] + v[p..];
    assert forall k :: 0 <= k < caret ==> u[k] == v[k];
    assert forall k :: caret <= k < |u| ==> u[k] == v[k + p - caret];
    LineStartIs(u, caret, lineStart);
    if lineEnd < |v| {
      assert u[lineEnd - p + caret] == '\n';
    }
  }

  /** The line after the edit is still blank and starts where it did. */
  lemma StillBlank(e: Edit, caret: nat)
    requires InBlankIndentation(e) && LineStart(e.value, e.start) < caret <= e.start
    ensures
      var r := Edit(e.value[..caret] + e.value[e.start..], caret, caret);
      InBlankIndentation(r) && LineStart(r.value, caret) == LineStart(e.value, e.start)
  {
    var lineStart, lineEnd := LineStart(e.value, e.start), NextBreak(e.value, e.start);
    BlankRange(e.value, lineStart, lineEnd);
    CutBlankLine(e.value, lineStart, caret, e.start, lineEnd);
    var u := e.value[..caret] + e.value[e.start..];
    BlankRange(u, lineStart, NextBreak(u, caret));
  }

  function Presses(e: Edit, n: nat, language: Language, tabSize: nat): Edit
    requires tabSize >= 1
    decreases n
  {
    if n == 0 || !InBounds(e) then e
    else match Handle(e, Backspace, language, tabSize)
      case Some(edit) => Presses(edit, n - 1, language, tabSize)
      case None => e
  }

  /** ceil(column / tabSize). */
  function PressesNeeded(column: nat, tabSize: nat): nat
    requires tabSize >= 1
  {
    (column + tabSize - 1) / tabSize
  }

  lemma OneFewer(column: nat, tabSize: nat)
    requires tabSize >= 1 && column >= 1
    ensures TabStopBefore(column, tabSize) >= 0
    ensures TabStopBefore(column, tabSize) == (PressesNeeded(column, tabSize) - 1) * tabSize
    ensures PressesNeeded(TabStopBefore(column, tabSize), tabSize) == PressesNeeded(column, tabSize) - 1
  {
    StopBefore(column, tabSize);
    var n, r := (column - 1) / tabSize, (column - 1) % tabSize;
    assert column - 1 == n * tabSize + r;
    assert column + tabSize - 1 == (n + 1) * tabSize + r;
    QuotientUnique(column + tabSize - 1, tabSize, n + 1, r);
    QuotientUnique(n * tabSize + tabSize - 1, tabSize, n, tabSize - 1);
  }

  lemma StartOrPositive(prefix: string, tabSize: nat)
    requires tabSize >= 1
    ensures Column(prefix, tabSize) == 0 <==> prefix == ""
  {
    if prefix != "" {
      ColumnGrows(prefix, tabSize);
    }
  }

  lemma StopOrStart(prefix: string, needed: nat, tabSize: nat)
    requires tabSize >= 1 && needed >= 1 && Column(prefix, tabSize) == (needed - 1) * tabSize
    ensures prefix == "" <==> needed == 1
  {
    StartOrPositive(prefix, tabSize);
    if needed >= 2 {
      MulAtLeast(needed - 1, tabSize);
    }
  }

  /** One press, with what the next press needs to know. */
  lemma PressOnce(e: Edit, language: Language, tabSize: nat) returns (once: Edit)
    requires tabSize >= 1 && InBlankIndentation(e)
    ensures Handle(e, Backspace, language, tabSize) == Some(once)
    ensures LineStart(e.value, e.start) <= once.start == once.end < e.start
    ensures once.value == e.value[..once.start] + e.value[e.start..]
    ensures PressesNeeded(CaretColumn(e, tabSize), tabSize) >= 1
    ensures Column(e.value[LineStart(e.value, e.start)..once.start], tabSize) ==
            (PressesNeeded(CaretColumn(e, tabSize), tabSize) - 1) * tabSize
    ensures once.start == LineStart(e.value, e.start) <==> PressesNeeded(CaretColumn(e, tabSize), tabSize) == 1
    ensures once.start > LineStart(e.value, e.start) ==>
              && InBlankIndentation(once)
              && LineStart(once.value, once.start) == LineStart(e.value, e.start)
              && PressesNeeded(CaretColumn(once, tabSize), tabSize) ==
                   PressesNeeded(CaretColumn(e, tabSize), tabSize) - 1
  {
    var lineStart := LineStart(e.value, e.start);
    var caret := BackspaceLandsOnStop(e, tabSize, language);
    once := Edit(e.value[..caret] + e.value[e.start..], caret, caret);
    var column := CaretColumn(e, tabSize);
    OneFewer(column, tabSize);
    StopOrStart(e.value[lineStart..caret], PressesNeeded(column, tabSize), tabSize);
    if caret > lineStart {
      StillBlank(e, caret);
      assert once.value[lineStart..caret] == e.value[lineStart..caret];
    }
  }

  /** Deleting back to a, then from there back to b, deletes back to b. */
  lemma DeleteTwice(v: string, from: nat, b: nat, a: nat, p: nat)
    requires from <= b <= a <= p <= |v|
    ensures
      var once := v[..a] + v[p..];
      once[..b] + once[a..] == v[..b] + v[p..] && once[from..b] == v[from..b]
  {}

  /** What j of the needed presses make of a caret: it stands on tab stop needed - j of its line, only text
      between that stop and the old caret is gone, and the line start is reached exactly with the last press. */
  predicate Reached(e: Edit, r: Edit, j: nat, tabSize: nat)
    requires tabSize >= 1 && InBlankIndentation(e)
  {
    var needed := PressesNeeded(CaretColumn(e, tabSize), tabSize);
    var lineStart := LineStart(e.value, e.start);
    && lineStart <= r.start == r.end <= e.start
    && r.value == e.value[..r.start] + e.value[e.start..]
    && (j > 0 ==> Column(e.value[lineStart..r.start], tabSize) == (needed - j) * tabSize)
    && (r.start == lineStart <==> j == needed)
  }

  lemma ReachedLater(e: Edit, once: Edit, r: Edit, j: nat, tabSize: nat)
    requires tabSize >= 1 && InBlankIndentation(e) && InBlankIndentation(once) && j >= 2
    requires once.start <= e.start && once.value == e.value[..once.start] + e.value[e.start..]
    requires LineStart(once.value, once.start) == LineStart(e.value, e.start)
    requires PressesNeeded(CaretColumn(once, tabSize), tabSize) == PressesNeeded(CaretColumn(e, tabSize), tabSize) - 1
    requires Reached(once, r, j - 1, tabSize)
    ensures Reached(e, r, j, tabSize)
  {
    DeleteTwice(e.value, LineStart(e.value, e.start), r.start, once.start, e.start);
  }

  lemma ReachedAtFirst(e: Edit, tabSize: nat)
    requires tabSize >= 1 && InBlankIndentation(e) && PressesNeeded(CaretColumn(e, tabSize), tabSize) >= 1
    ensures Reached(e, e, 0, tabSize)
  {
    assert e.value[..e.start] + e.value[e.start..] == e.value;
  }

  lemma ReachedOnce(e: Edit, once: Edit, tabSize: nat)
    requires tabSize >= 1 && InBlankIndentation(e)
    requires LineStart(e.value, e.start) <= once.start == once.end < e.start
    requires once.value == e.value[..once.start] + e.value[e.start..]
    requires Column(e.value[LineStart(e.value, e.start)..once.start], tabSize) ==
             (PressesNeeded(CaretColumn(e, tabSize), tabSize) - 1) * tabSize
    requires once.start == LineStart(e.value, e.start) <==> PressesNeeded(CaretColumn(e, tabSize), tabSize) == 1
    ensures Reached(e, once, 1, tabSize)
  {}

  lemma PressesUnfold(e: Edit, once: Edit, j: nat, language: Language, tabSize: nat)
    requires tabSize >= 1 && InBounds(e) && Handle(e, Backspace, language, tabSize) == Some(once)
    ensures Presses(e, 0, language, tabSize) == e
    ensures j > 0 ==> Presses(e, j, language, tabSize) == Presses(once, j - 1, language, tabSize)
  {}

  /** Exactly ceil(column / tabSize) presses bring a caret in blank indentation to its line start. */
  lemma {:induction false} PressesReachLineStart(e: Edit, j: nat, language: Language, tabSize: nat)
    requires tabSize >= 1 && InBlankIndentation(e) && j <= PressesNeeded(CaretColumn(e, tabSize), tabSize)
    ensures Reached(e, Presses(e, j, language, tabSize), j, tabSize)
    decreases j
  {
    hide Reached, Handle, CaretColumn, PressesNeeded, LineStart, Column, OnBlankLine;
    var once := PressOnce(e, language, tabSize);
    PressesUnfold(e, once, j, language, tabSize);
    if j == 0 {
      ReachedAtFirst(e, tabSize);
    } else if j == 1 {
      ReachedOnce(e, once, tabSize);
    } else {
      PressesReachLineStart(once, j - 1, language, tabSize);
      ReachedLater(e, once, Presses(once, j - 1, language, tabSize), j, tabSize);
    }
  }
}
