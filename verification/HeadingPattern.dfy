/** The heading classifier against the pattern it implements: optional hashes, the words, an optional colon. */
module HeadingPattern {
  import opened Verdicts
  import opened GoText
  import opened FormatBackfill

  /** `\s*`: blanks, tabs, line feeds, form feeds and carriage returns. */
  predicate AllAscii(s: string) {
    forall k :: 0 <= k < |s| ==> s[k] as int in {0x20, 0x09, 0x0A, 0x0C, 0x0D}
  }

  /** The text is the word, each of its letters in either case. */
  predicate SameLetters(text: string, word: string) {
    |text| == |word| && forall k :: 0 <= k < |text| ==>
      text[k] == word[k] || ('a' <= word[k] <= 'z' && text[k] as int == word[k] as int - 32)
  }

  /** `(?:#{1,6}\s+)?` */
  predicate IsMarks(s: string, n: nat) {
    s == "" || (1 <= n <= 6 && n < |s| && (forall k :: 0 <= k < n ==> s[k] == '#') && AllAscii(s[n..]))
  }

  /** `\s*:?\s*`, with its first blanks ending at i. */
  predicate IsTail(s: string, i: nat) {
    i <= |s| && AllAscii(s[..i]) && (i == |s| || (s[i] == ':' && AllAscii(s[i + 1..])))
  }

  predicate IsWord(word: string, h: Heading) {
    match h
    case InputHeading => SameLetters(word, "input") || SameLetters(word, "input format")
    case OutputHeading => SameLetters(word, "output") || SameLetters(word, "output format")
  }

  /** Lowering a text gives a word of small letters and blanks exactly when the text is that word in any case. */
  lemma LowerIs(text: string, word: string)
    requires forall k :: 0 <= k < |word| ==> 'a' <= word[k] <= 'z' || word[k] == ' '
    ensures Lower(text) == word <==> SameLetters(text, word)
  {
    LowerPointwise(text);
    if SameLetters(text, word) {
      assert forall k :: 0 <= k < |text| ==> Lower(text)[k] == word[k];
    }
  }

  lemma WordByLower(text: string, h: Heading)
    ensures
      var w := Lower(text);
      IsWord(text, h) <==> match h
        case InputHeading => w == "input" || w == "input format"
        case OutputHeading => w == "output" || w == "output format"
  {
    hide Lower, SameLetters;
    LowerIs(text, "input");
    LowerIs(text, "input format");
    LowerIs(text, "output");
    LowerIs(text, "output format");
  }

  predicate Decomposes(t: string, h: Heading, marks: string, n: nat, word: string, tail: string, i: nat) {
    t == marks + (word + tail) && IsMarks(marks, n) && IsWord(word, h) && IsTail(tail, i)
  }

  ghost predicate MatchesPattern(t: string, h: Heading) {
    exists marks: string, n: nat, word: string, tail: string, i: nat :: Decomposes(t, h, marks, n, word, tail, i)
  }

  // ---- Words ----

  predicate IsLetter(c: char) {
    'a' <= c <= 'z' || 'A' <= c <= 'Z'
  }

  /** The words begin and end with a letter. */
  lemma WordEnds(word: string, h: Heading)
    requires IsWord(word, h)
    ensures word != "" && IsLetter(word[0]) && IsLetter(word[|word| - 1])
  {}

  // ---- The three trims ----

  lemma {:induction false} SkipRun(run: string, rest: string)
    requires AllAscii(run) && (rest == "" || !AsciiSpace(rest[0]))
    ensures SkipAscii(run + rest) == rest
  {
    if run == "" {
      assert run + rest == rest;
    } else {
      assert (run + rest)[1..] == run[1..] + rest;
      SkipRun(run[1..], rest);
    }
  }

  lemma {:induction false} DropRun(rest: string, run: string)
    requires AllAscii(run) && (rest == "" || !AsciiSpace(rest[|rest| - 1]))
    ensures DropAscii(rest + run) == rest
  {
    if run == "" {
      assert rest + run == rest;
    } else {
      assert (rest + run)[..|rest + run| - 1] == rest + run[..|run| - 1];
      DropRun(rest, run[..|run| - 1]);
    }
  }

  lemma {:induction false} HashRun(s: string, n: nat)
    requires n < |s| && (forall k :: 0 <= k < n ==> s[k] == '#') && s[n] != '#'
    ensures Hashes(s) == n
  {
    if n > 0 {
      HashRun(s[1..], n - 1);
    }
  }

  lemma MarksDropped(marks: string, n: nat, rest: string)
    requires IsMarks(marks, n) && rest != "" && IsLetter(rest[0])
    ensures WithoutMarks(marks + rest) == rest
  {
    hide SkipAscii, Hashes;
    var t := marks + rest;
    if marks == "" {
      assert t == rest;
      HashRun(t, 0);
    } else {
      assert AsciiSpace(marks[n..][0]) && t[n] == marks[n..][0];
      HashRun(t, n);
      assert t[n..] == marks[n..] + rest;
      SkipRun(marks[n..], rest);
    }
  }

  lemma TailDropped(word: string, tail: string, i: nat)
    requires IsTail(tail, i) && word != "" && IsLetter(word[|word| - 1])
    ensures WithoutColon(word + tail) == word
  {
    hide DropAscii;
    if i == |tail| {
      assert tail[..i] == tail;
      DropRun(word, tail);
    } else {
      var head := word + tail[..i] + [tail[i]];
      assert word + tail == head + tail[i + 1..];
      DropRun(head, tail[i + 1..]);
      assert head[..|head| - 1] == word + tail[..i];
      DropRun(word, tail[..i]);
    }
  }

  lemma WordClassified(t: string, word: string, h: Heading)
    requires WithoutColon(WithoutMarks(TrimSpace(t))) == word && IsWord(word, h)
    ensures HeadingOf(t) == Some(h)
  {
    hide Lower, WithoutColon, WithoutMarks, TrimSpace, IsWord;
    WordByLower(word, h);
  }

  lemma PatternClassified(line: string, h: Heading)
    requires MatchesPattern(TrimSpace(line), h)
    ensures HeadingOf(line) == Some(h)
  {
    hide HeadingOf, WithoutColon, WithoutMarks, TrimSpace, IsMarks, IsTail, IsWord;
    var t := TrimSpace(line);
    var marks, n, word, tail, i :| Decomposes(t, h, marks, n, word, tail, i);
    WordEnds(word, h);
    assert (word + tail)[0] == word[0];
    MarksDropped(marks, n, word + tail);
    TailDropped(word, tail, i);
    WordClassified(line, word, h);
  }

  // ---- And back ----

  lemma {:induction false} SkipSplits(s: string) returns (run: string)
    ensures AllAscii(run) && s == run + SkipAscii(s)
  {
    if s != "" && AsciiSpace(s[0]) {
      var rest := SkipSplits(s[1..]);
      run := [s[0]] + rest;
    } else {
      run := "";
    }
  }

  lemma {:induction false} DropSplits(s: string) returns (run: string)
    ensures AllAscii(run) && s == DropAscii(s) + run
  {
    if s != "" && AsciiSpace(s[|s| - 1]) {
      var rest := DropSplits(s[..|s| - 1]);
      run := rest + [s[|s| - 1]];
    } else {
      run := "";
    }
  }

  lemma {:induction false} HashesAre(s: string)
    ensures forall k :: 0 <= k < Hashes(s) ==> s[k] == '#'
  {
    if s != "" && s[0] == '#' {
      HashesAre(s[1..]);
    }
  }

  lemma MarksSplit(t: string) returns (marks: string, n: nat)
    ensures IsMarks(marks, n) && t == marks + WithoutMarks(t)
  {
    hide SkipAscii, Hashes;
    n := Hashes(t);
    HashesAre(t);
    if 1 <= n <= 6 && n < |t| && AsciiSpace(t[n]) {
      var run := SkipSplits(t[n..]);
      SkipsSomething(t[n..], run);
      marks := t[..n] + run;
      assert marks[n..] == run;
    } else {
      marks := "";
    }
  }

  lemma SkipsSomething(s: string, run: string)
    requires s != "" && AsciiSpace(s[0]) && s == run + SkipAscii(s)
    ensures run != ""
  {
    SkipNoLonger(s[1..]);
  }

  lemma {:induction false} SkipNoLonger(s: string)
    ensures |SkipAscii(s)| <= |s|
  {
    if s != "" && AsciiSpace(s[0]) {
      SkipNoLonger(s[1..]);
    }
  }

  lemma TailSplit(t: string) returns (tail: string, i: nat)
    ensures IsTail(tail, i) && t == WithoutColon(t) + tail
  {
    hide DropAscii;
    var run := DropSplits(t);
    var d := DropAscii(t);
    if d != "" && d[|d| - 1] == ':' {
      var before := d[..|d| - 1];
      var inner := DropSplits(before);
      tail, i := inner + ":" + run, |inner|;
      assert tail[..i] == inner && tail[i + 1..] == run;
      assert d == before + ":";
    } else {
      tail, i := run, |run|;
      assert tail[..i] == run;
    }
  }

  lemma ClassifiedPattern(line: string, h: Heading)
    requires HeadingOf(line) == Some(h)
    ensures MatchesPattern(TrimSpace(line), h)
  {
    hide WithoutColon, WithoutMarks, TrimSpace, IsMarks, IsTail, Lower, IsWord;
    var t := TrimSpace(line);
    var marks, n := MarksSplit(t);
    var rest := WithoutMarks(t);
    var tail, i := TailSplit(rest);
    var word := WithoutColon(rest);
    WordByLower(word, h);
    assert Decomposes(t, h, marks, n, word, tail, i);
  }

  /** A line is classified as a heading exactly when its trimmed text matches the pattern with one of the four words. */
  lemma HeadingIsPattern(line: string, h: Heading)
    ensures HeadingOf(line) == Some(h) <==> MatchesPattern(TrimSpace(line), h)
  {
    hide HeadingOf, MatchesPattern;
    if HeadingOf(line) == Some(h) {
      ClassifiedPattern(line, h);
    }
    if MatchesPattern(TrimSpace(line), h) {
      PatternClassified(line, h);
    }
  }

  // ---- Attributions ----

  /** `(?i)^source\s*:`, with the colon at n; the long s is an s in either case. */
  predicate SourceAt(t: string, n: nat) {
    && 6 <= n < |t| && t[n] == ':' && AllAscii(t[6..n])
    && (t[0] in {'s', 'S', '\U{017F}'}) && SameLetters(t[1..6], "ource")
  }

  lemma SourceWord(t: string)
    requires |t| >= 6
    ensures (Lower(t[..6]) == "source" || (t[0] == '\U{017F}' && Lower(t[1..6]) == "ource")) <==>
            t[0] in {'s', 'S', '\U{017F}'} && SameLetters(t[1..6], "ource")
  {
    hide Lower;
    LowerIs(t[1..6], "ource");
    LowerPointwise(t[..6]);
    LowerPointwise(t[1..6]);
    var six, five := Lower(t[..6]), Lower(t[1..6]);
    assert six[1..] == five;
    assert six == [six[0]] + six[1..];
    assert "source" == ['s'] + "ource";
  }

  /** Where the colon stands behind a run of blanks. */
  lemma ColonAfter(t: string)
    requires |t| >= 6
    ensures SkipAscii(t[6..]) != "" && SkipAscii(t[6..])[0] == ':' <==>
            exists n: nat :: 6 <= n < |t| && t[n] == ':' && AllAscii(t[6..n])
  {
    hide SkipAscii;
    var rest := t[6..];
    var run := SkipSplits(rest);
    var tail := SkipAscii(rest);
    if tail != "" && tail[0] == ':' {
      var n := 6 + |run|;
      assert t[n] == rest[|run|] == tail[0];
      assert t[6..n] == run;
    }
    forall n: nat | 6 <= n < |t| && t[n] == ':' && AllAscii(t[6..n]) ensures tail != "" && tail[0] == ':' {
      assert rest == t[6..n] + t[n..];
      SkipRun(t[6..n], t[n..]);
    }
  }

  /** A line is an attribution exactly when its trimmed text matches the pattern. */
  lemma AttributionIsPattern(line: string)
    ensures IsAttribution(line) <==> exists n: nat :: SourceAt(TrimSpace(line), n)
  {
    hide TrimSpace, SkipAscii, Lower, SameLetters, AllAscii;
    var t := TrimSpace(line);
    if |t| > 6 {
      SourceWord(t);
      ColonAfter(t);
    }
    if IsAttribution(line) {
      var n: nat :| 6 <= n < |t| && t[n] == ':' && AllAscii(t[6..n]);
      assert SourceAt(t, n);
    }
  }
}
