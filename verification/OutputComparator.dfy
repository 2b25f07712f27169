/** The comparison that decides every verdict: normalise both outputs, then compare. */
module OutputComparator {
  import opened Lines

  // ---- The code's two replacement passes and its two right-trims ----

  function ReplaceCR(s: string): string {
    if s == "" then ""
    else [if s[0] == '\r' then '\n' else s[0]] + ReplaceCR(s[1..])
  }

  function TrimBlanks(l: string): string {
    if l != "" && IsBlank(l[|l| - 1]) then TrimBlanks(l[..|l| - 1]) else l
  }

  function TrimAll(ls: seq<string>): (r: seq<string>)
    ensures |r| == |ls|
    ensures forall k :: 0 <= k < |ls| ==> r[k] == TrimBlanks(ls[k])
  {
    if ls == [] then [] else [TrimBlanks(ls[0])] + TrimAll(ls[1..])
  }

  function TrimBreaks(s: string): string {
    if s != "" && s[|s| - 1] == '\n' then TrimBreaks(s[..|s| - 1]) else s
  }

  function Normalized(value: string): string {
    TrimBreaks(Join(TrimAll(Split(ReplaceCR(ReplaceCRLF(value))))))
  }

  /** The loop of the source: every line is trimmed in place. */
  method NormalizeOutput(value: string) returns (r: string)
    ensures r == Normalized(value)
  {
    var text := ReplaceCRLF(value);
    text := ReplaceCR(text);
    var split := Split(text);
    var lines := new string[|split|](i requires 0 <= i < |split| => split[i]);
    for i := 0 to lines.Length
      invariant forall k :: 0 <= k < i ==> lines[k] == TrimBlanks(split[k])
      invariant forall k :: i <= k < lines.Length ==> lines[k] == split[k]
    {
      lines[i] := TrimBlanks(lines[i]);
    }
    assert lines[..] == TrimAll(split);
    r := TrimBreaks(Join(lines[..]));
  }

  /** The verdict of one testcase, in the terms a problem setter would use:
      at every line number both outputs show the same text, where a line is ended
      by CRLF, CR or LF, blanks at its end do not show, and lines past the end of an
      output are empty. */
  method OutputEqual(actual: string, expected: string) returns (equal: bool)
    ensures equal <==> SameAnswer(actual, expected)
  {
    var a := NormalizeOutput(actual);
    var e := NormalizeOutput(expected);
    NormalFormDecides(actual, expected);
    return a == e;
  }

  // ---- The declarative reading ----

  /** One-pass reader of lines ended by CRLF, CR or LF. */
  function ReadLines(s: string): (ls: seq<string>)
    ensures |ls| >= 1
  {
    if s == "" then [""]
    else if |s| >= 2 && s[0] == '\r' && s[1] == '\n' then [""] + ReadLines(s[2..])
    else if s[0] == '\r' || s[0] == '\n' then [""] + ReadLines(s[1..])
    else Push(s[0], ReadLines(s[1..]))
  }

  /** The text from an index on consists of blanks and tabs. */
  predicate BlankFrom(l: string, n: nat) {
    n <= |l| && forall k :: n <= k < |l| ==> l[k] == ' ' || l[k] == '\t'
  }

  /** Two lines agree but for blanks and tabs at their ends. */
  ghost predicate SameLine(x: string, y: string) {
    exists n: nat :: BlankFrom(x, n) && BlankFrom(y, n) && x[..n] == y[..n]
  }

  function LineAt(ls: seq<string>, k: nat): string {
    if k < |ls| then ls[k] else ""
  }

  /** The reading a problem setter has in mind: at every line number both outputs have the same line. */
  ghost predicate SameAnswer(a: string, b: string) {
    forall k: nat :: SameLine(LineAt(ReadLines(a), k), LineAt(ReadLines(b), k))
  }

  /** What line k of a list shows; past the end it shows nothing. */
  function Shown(ls: seq<string>, k: nat): string {
    if k < |ls| then TrimBlanks(ls[k]) else ""
  }

  ghost predicate SameShown(a: string, b: string) {
    forall k: nat :: Shown(ReadLines(a), k) == Shown(ReadLines(b), k)
  }

  lemma {:induction false} TrimDropsBlanks(l: string, n: nat)
    requires BlankFrom(l, n)
    ensures TrimBlanks(l) == TrimBlanks(l[..n])
  {
    if n == |l| {
      assert l[..n] == l;
    } else {
      var init := l[..|l| - 1];
      TrimDropsBlanks(init, n);
      assert init[..n] == l[..n];
    }
  }

  /** Lines agree but for blanks at their ends exactly when their trimmed texts are equal. */
  lemma SameLineTrimmed(x: string, y: string)
    ensures SameLine(x, y) <==> TrimBlanks(x) == TrimBlanks(y)
  {
    hide TrimBlanks;
    if SameLine(x, y) {
      var n: nat :| BlankFrom(x, n) && BlankFrom(y, n) && x[..n] == y[..n];
      TrimDropsBlanks(x, n);
      TrimDropsBlanks(y, n);
    }
    if TrimBlanks(x) == TrimBlanks(y) {
      TrimIsPrefix(x);
      TrimIsPrefix(y);
      assert x[..|TrimBlanks(x)|] == y[..|TrimBlanks(x)|];
    }
  }

  lemma SameAnswerShown(a: string, b: string)
    ensures SameAnswer(a, b) <==> SameShown(a, b)
  {
    hide ReadLines, SameLine, TrimBlanks;
    TrimNothing();
    var x, y := ReadLines(a), ReadLines(b);
    forall k: nat ensures SameLine(LineAt(x, k), LineAt(y, k)) <==> Shown(x, k) == Shown(y, k) {
      SameLineTrimmed(LineAt(x, k), LineAt(y, k));
    }
    if SameAnswer(a, b) {
      forall k: nat ensures Shown(x, k) == Shown(y, k) {
        assert SameLine(LineAt(x, k), LineAt(y, k));
      }
    }
    if SameShown(a, b) {
      forall k: nat ensures SameLine(LineAt(x, k), LineAt(y, k)) {
        assert Shown(x, k) == Shown(y, k);
      }
    }
  }

  lemma TrimNothing()
    ensures TrimBlanks("") == ""
  {}

  // ---- The two replacement passes equal one reader ----

  lemma {:induction false} PassesAreOneReader(s: string)
    ensures Split(ReplaceCR(ReplaceCRLF(s))) == ReadLines(s)
  {
    if s == "" {
    } else if StartsCRLF(s) {
      PassesAreOneReader(s[2..]);
      assert ("\n" + ReplaceCRLF(s[2..]))[1..] == ReplaceCRLF(s[2..]);
      assert ("\n" + ReplaceCR(ReplaceCRLF(s[2..])))[1..] == ReplaceCR(ReplaceCRLF(s[2..]));
    } else {
      PassesAreOneReader(s[1..]);
      var t := ReplaceCRLF(s[1..]);
      assert ([s[0]] + t)[1..] == t;
      var c := if s[0] == '\r' then '\n' else s[0];
      assert ([c] + ReplaceCR(t))[1..] == ReplaceCR(t);
    }
  }

  // ---- Dropping trailing empty lines ----

  function DropEmptyTail(ls: seq<string>): (r: seq<string>)
    ensures r <= ls
    ensures r != [] ==> r[|r| - 1] != ""
    ensures forall k :: |r| <= k < |ls| ==> ls[k] == ""
  {
    if ls != [] && ls[|ls| - 1] == "" then DropEmptyTail(ls[..|ls| - 1]) else ls
  }

  lemma {:induction false} TrimBreaksOfJoin(ls: seq<string>)
    requires AllLines(ls)
    ensures TrimBreaks(Join(ls)) == Join(DropEmptyTail(ls))
  {
    if ls != [] {
      var init, last := ls[..|ls| - 1], ls[|ls| - 1];
      assert ls == init + [last];
      if init == [] {
      } else {
        JoinConcat(init, [last]);
        if last == "" {
          assert Join(ls)[..|Join(ls)| - 1] == Join(init);
          TrimBreaksOfJoin(init);
        } else {
          assert Join(ls)[|Join(ls)| - 1] == last[|last| - 1];
        }
      }
    }
  }

  /** The lines that remain once invisible endings are gone. */
  function Canon(s: string): seq<string> {
    DropEmptyTail(TrimAll(ReadLines(s)))
  }

  lemma CanonLines(s: string)
    ensures AllLines(Canon(s)) && Normalized(s) == Join(Canon(s))
  {
    PassesAreOneReader(s);
    var ls := ReadLines(s);
    forall k | 0 <= k < |ls| ensures OneLine(TrimBlanks(ls[k])) {
      TrimIsPrefix(ls[k]);
    }
    TrimBreaksOfJoin(TrimAll(ls));
  }

  lemma {:induction false} TrimIsPrefix(l: string)
    ensures TrimBlanks(l) <= l
    ensures TrimBlanks(l) != "" ==> !IsBlank(TrimBlanks(l)[|TrimBlanks(l)| - 1])
    ensures BlankFrom(l, |TrimBlanks(l)|)
  {
    if l != "" && IsBlank(l[|l| - 1]) {
      TrimIsPrefix(l[..|l| - 1]);
    }
  }

  /** A list without an empty tail can be read back from its joined text. */
  lemma JoinInjective(x: seq<string>, y: seq<string>)
    requires AllLines(x) && AllLines(y)
    requires x == DropEmptyTail(x) && y == DropEmptyTail(y)
    requires Join(x) == Join(y)
    ensures x == y
  {
    if x != [] { SplitJoin(x); }
    if y != [] { SplitJoin(y); }
  }

  /** Dropping invisible endings changes what no line shows. */
  lemma CanonShows(s: string, k: nat)
    ensures Shown(ReadLines(s), k) == if k < |Canon(s)| then Canon(s)[k] else ""
  {
    var all := TrimAll(ReadLines(s));
    if k < |all| {
      assert all[k] == TrimBlanks(ReadLines(s)[k]);
    }
  }

  lemma ShownSameCanon(a: string, b: string)
    requires SameShown(a, b)
    ensures Canon(a) == Canon(b)
  {
    var x, y := Canon(a), Canon(b);
    forall k: nat ensures (if k < |x| then x[k] else "") == (if k < |y| then y[k] else "") {
      CanonShows(a, k);
      CanonShows(b, k);
    }
    assert |x| == |y|;
  }

  /** Equal normal forms mean exactly: the same answer, line by line. */
  lemma NormalFormDecides(a: string, b: string)
    ensures Normalized(a) == Normalized(b) <==> SameAnswer(a, b)
  {
    SameAnswerShown(a, b);
    CanonLines(a);
    CanonLines(b);
    if Normalized(a) == Normalized(b) {
      JoinInjective(Canon(a), Canon(b));
      forall k: nat ensures Shown(ReadLines(a), k) == Shown(ReadLines(b), k) {
        CanonShows(a, k);
        CanonShows(b, k);
      }
    }
    if SameShown(a, b) {
      ShownSameCanon(a, b);
    }
  }

  // ---- Normal forms ----

  /** No blank stands right before a line feed or at the end of the text. */
  predicate NoHiddenBlank(s: string) {
    forall i :: 0 <= i < |s| && (s[i] == ' ' || s[i] == '\t') ==> i + 1 < |s| && s[i + 1] != '\n'
  }

  predicate Normal(s: string) {
    '\r' !in s && NoHiddenBlank(s) && (s != "" ==> s[|s| - 1] != '\n')
  }

  predicate TidyLine(l: string) {
    OneLine(l) && '\r' !in l && (l != "" ==> !IsBlank(l[|l| - 1]))
  }

  /** No blank stands right before a line feed. */
  predicate NoBlankBeforeBreak(s: string) {
    forall i :: 0 <= i < |s| - 1 && IsBlank(s[i]) ==> s[i + 1] != '\n'
  }

  lemma TidyLineInFront(l: string, t: string)
    requires TidyLine(l) && '\r' !in t && NoBlankBeforeBreak(t)
    ensures '\r' !in l + "\n" + t && NoBlankBeforeBreak(l + "\n" + t)
  {
    var s := l + "\n" + t;
    forall i | 0 <= i < |s| - 1 && IsBlank(s[i]) ensures s[i + 1] != '\n' {
      if i > |l| {
        assert s[i] == t[i - |l| - 1] && s[i + 1] == t[i - |l|];
      } else if i + 1 < |l| {
        assert s[i + 1] == l[i + 1];
      }
    }
  }

  lemma {:induction false} JoinOfTidyLines(ls: seq<string>)
    requires forall k :: 0 <= k < |ls| ==> TidyLine(ls[k])
    ensures '\r' !in Join(ls) && NoBlankBeforeBreak(Join(ls))
    ensures ls != [] && ls[|ls| - 1] != "" ==>
              Join(ls) != "" && Join(ls)[|Join(ls)| - 1] == ls[|ls| - 1][|ls[|ls| - 1]| - 1]
  {
    if |ls| >= 2 {
      hide TidyLine, NoBlankBeforeBreak;
      JoinOfTidyLines(ls[1..]);
      TidyLineInFront(ls[0], Join(ls[1..]));
    }
  }

  lemma {:induction false} ReaderDropsCR(s: string)
    ensures forall k :: 0 <= k < |ReadLines(s)| ==> '\r' !in ReadLines(s)[k]
  {
    if s == "" {
    } else if StartsCRLF(s) {
      ReaderDropsCR(s[2..]);
    } else {
      ReaderDropsCR(s[1..]);
    }
  }

  lemma NormalizedIsNormal(s: string)
    ensures Normal(Normalized(s))
  {
    CanonLines(s);
    ReaderDropsCR(s);
    var ls, c := ReadLines(s), Canon(s);
    forall k | 0 <= k < |c| ensures TidyLine(c[k]) {
      assert c[k] == TrimBlanks(ls[k]);
      TrimIsPrefix(ls[k]);
    }
    JoinOfTidyLines(c);
    if c != [] {
      assert TidyLine(c[|c| - 1]);
    }
  }

  lemma {:induction false} LinesOfNormal(s: string)
    requires '\r' !in s && NoHiddenBlank(s)
    ensures ReadLines(s) == Split(s)
    ensures forall k :: 0 <= k < |Split(s)| ==> TrimBlanks(Split(s)[k]) == Split(s)[k]
  {
    if s != "" {
      var t := s[1..];
      assert NoHiddenBlank(t) by {
        forall i | 0 <= i < |t| && IsBlank(t[i]) ensures i + 1 < |t| && t[i + 1] != '\n' {
          assert t[i] == s[i + 1];
        }
      }
      LinesOfNormal(t);
      if s[0] != '\n' {
        TidyPush(s[0], t);
      }
    }
  }

  /** A character put in front of a tidy first line keeps it tidy. */
  lemma TidyPush(c: char, t: string)
    requires TrimBlanks(Split(t)[0]) == Split(t)[0]
    requires IsBlank(c) ==> t != "" && t[0] != '\n'
    ensures TrimBlanks([c] + Split(t)[0]) == [c] + Split(t)[0]
  {
    var f := Split(t)[0];
    TrimIsPrefix(f);
    var l := [c] + f;
    assert l[|l| - 1] == if f == "" then c else f[|f| - 1];
  }

  lemma {:induction false} LastLine(s: string)
    requires s != "" && s[|s| - 1] != '\n'
    ensures Split(s)[|Split(s)| - 1] != ""
  {
    hide Split;
    if |s| == 1 {
      SplitOneLine(s);
    } else {
      assert s[1..][|s| - 2] == s[|s| - 1];
      LastLine(s[1..]);
      LastLineOfRest(s);
    }
  }

  /** One more character in front leaves the last line or makes it longer. */
  lemma LastLineOfRest(s: string)
    requires s != ""
    ensures
      var last, rest := Split(s)[|Split(s)| - 1], Split(s[1..]);
      |last| >= |rest[|rest| - 1]|
  {
    hide Split;
    SplitFirst(s);
    LastOfPush(s[0], Split(s[1..]));
  }

  lemma LastOfPush(c: char, ls: seq<string>)
    requires ls != []
    ensures |Push(c, ls)[|ls| - 1]| >= |ls[|ls| - 1]|
  {}

  /** The fixed points of normalisation are exactly the normal texts, and one pass reaches one. */
  lemma FixedPoints(s: string)
    ensures Normalized(s) == s <==> Normal(s)
    ensures Normalized(Normalized(s)) == Normalized(s)
  {
    NormalizedIsNormal(s);
    NormalIsFixed(Normalized(s));
    if Normal(s) {
      NormalIsFixed(s);
    }
  }

  lemma NormalIsFixed(s: string)
    requires Normal(s)
    ensures Normalized(s) == s
  {
    hide ReadLines, Split, TrimBlanks, Normalized, DropEmptyTail, Join, NoHiddenBlank;
    CanonLines(s);
    LinesOfNormal(s);
    assert TrimAll(ReadLines(s)) == Split(s);
    JoinSplit(s);
    if s == "" {
      SplitOneLine("");
      DropOnlyEmpty();
    } else {
      LastLine(s);
      DropNothing(Split(s));
    }
  }

  lemma DropNothing(ls: seq<string>)
    requires ls != [] && ls[|ls| - 1] != ""
    ensures DropEmptyTail(ls) == ls
  {}

  lemma DropOnlyEmpty()
    ensures DropEmptyTail([""]) == [] && Join([]) == ""
  {}

  // ---- Congruence ----

  /** The lines completed when text p is followed by a line feed. */
  function Completed(p: string): (ls: seq<string>)
    ensures |ls| >= 1
  {
    if p == "" || p == "\r" then [""]
    else if StartsCRLF(p) then [""] + Completed(p[2..])
    else if p[0] == '\r' || p[0] == '\n' then [""] + Completed(p[1..])
    else Push(p[0], Completed(p[1..]))
  }

  lemma ReadOverCRLF(p: string, u: string, rest: seq<string>)
    requires StartsCRLF(p) && ReadLines(p[2..] + u) == Completed(p[2..]) + rest
    ensures ReadLines(p + u) == Completed(p) + rest
  {
    hide ReadLines, Completed;
    assert (p + u)[2..] == p[2..] + u && (p + u)[0] == p[0] && (p + u)[1] == p[1];
    ReadCRLF(p + u);
    CompletedCRLF(p);
    assert [""] + (Completed(p[2..]) + rest) == [""] + Completed(p[2..]) + rest;
  }

  lemma ReadCRLF(s: string)
    requires StartsCRLF(s)
    ensures ReadLines(s) == [""] + ReadLines(s[2..])
  {}

  lemma CompletedCRLF(p: string)
    requires StartsCRLF(p)
    ensures Completed(p) == [""] + Completed(p[2..])
  {}

  lemma ReadOverBreak(p: string, u: string, rest: seq<string>)
    requires p != "" && p != "\r" && !StartsCRLF(p) && (p[0] == '\r' || p[0] == '\n')
    requires ReadLines(p[1..] + u) == Completed(p[1..]) + rest
    ensures ReadLines(p + u) == Completed(p) + rest
  {
    hide ReadLines, Completed;
    assert (p + u)[1..] == p[1..] + u;
    assert |p| >= 2 ==> (p + u)[1] == p[1];
    ReadBreak(p + u);
    CompletedBreak(p);
    assert [""] + (Completed(p[1..]) + rest) == [""] + Completed(p[1..]) + rest;
  }

  lemma ReadBreak(s: string)
    requires s != "" && !StartsCRLF(s) && (s[0] == '\r' || s[0] == '\n')
    ensures ReadLines(s) == [""] + ReadLines(s[1..])
  {}

  lemma CompletedBreak(p: string)
    requires p != "" && p != "\r" && !StartsCRLF(p) && (p[0] == '\r' || p[0] == '\n')
    ensures Completed(p) == [""] + Completed(p[1..])
  {}

  lemma ReadOverChar(p: string, u: string, rest: seq<string>)
    requires p != "" && p[0] != '\r' && p[0] != '\n'
    requires ReadLines(p[1..] + u) == Completed(p[1..]) + rest
    ensures ReadLines(p + u) == Completed(p) + rest
  {
    assert (p + u)[1..] == p[1..] + u;
    PushConcat(p[0], Completed(p[1..]), rest);
  }

  lemma {:induction false} ReadAfterBreak(p: string, u: string)
    requires u != "" && u[0] == '\n'
    ensures ReadLines(p + u) == Completed(p) + ReadLines(u[1..])
  {
    if p == "" {
      assert p + u == u;
    } else if p == "\r" {
      assert (p + u)[2..] == u[1..];
    } else if StartsCRLF(p) {
      ReadAfterBreak(p[2..], u);
      ReadOverCRLF(p, u, ReadLines(u[1..]));
    } else {
      ReadAfterBreak(p[1..], u);
      if p[0] == '\r' || p[0] == '\n' {
        ReadOverBreak(p, u, ReadLines(u[1..]));
      } else {
        ReadOverChar(p, u, ReadLines(u[1..]));
      }
    }
  }

  lemma ReadAfterPrefix(p: string, a: string)
    ensures ReadLines(p + "\n" + a) == Completed(p) + ReadLines(a)
  {
    ReadAfterBreak(p, "\n" + a);
    assert p + ("\n" + a) == p + "\n" + a;
    assert ("\n" + a)[1..] == a;
  }

  /** Putting the same lines in front of both outputs neither hides nor creates a difference. */
  lemma CommonPrefix(p: string, a: string, b: string)
    ensures SameAnswer(p + "\n" + a, p + "\n" + b) <==> SameAnswer(a, b)
  {
    hide ReadLines, Completed, TrimBlanks, SameAnswer;
    SameAnswerShown(a, b);
    SameAnswerShown(p + "\n" + a, p + "\n" + b);
    ReadAfterPrefix(p, a);
    ReadAfterPrefix(p, b);
    var x, y := ReadLines(p + "\n" + a), ReadLines(p + "\n" + b);
    var n := |Completed(p)|;
    assert forall k: nat :: Shown(ReadLines(a), k) == Shown(x, n + k) && Shown(ReadLines(b), k) == Shown(y, n + k);
    if SameShown(a, b) {
      forall k: nat ensures Shown(x, k) == Shown(y, k) {
        if k >= n {
          assert Shown(ReadLines(a), k - n) == Shown(ReadLines(b), k - n);
        }
      }
    }
  }
}
