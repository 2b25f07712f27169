/** Text as lines: splitting on and joining with a line feed, the way both the Go
    packages (strings.Split, strings.Join) and the browser code (split, join) do it. */
module Lines {

  /** The blanks that may stand at either end of a line. */
  predicate IsBlank(c: char) {
    c == ' ' || c == '\t'
  }

  /** The text contains no line feed. */
  predicate OneLine(s: string) {
    '\n' !in s
  }

  /** Every element is a single line. */
  predicate AllLines(ls: seq<string>) {
    forall k :: 0 <= k < |ls| ==> OneLine(ls[k])
  }

  /** The list with one more character in front of its first line. */
  function Push(c: char, ls: seq<string>): (r: seq<string>)
    requires |ls| >= 1
    ensures |r| == |ls| && r[0] == [c] + ls[0]
    ensures forall k :: 1 <= k < |ls| ==> r[k] == ls[k]
  {
    [[c] + ls[0]] + ls[1..]
  }

  lemma PushConcat(c: char, x: seq<string>, y: seq<string>)
    requires |x| >= 1
    ensures Push(c, x + y) == Push(c, x) + y
  {
    assert (x + y)[1..] == x[1..] + y;
  }

  function Split(s: string): (ls: seq<string>)
    ensures |ls| >= 1
    ensures AllLines(ls)
  {
    if s == "" then [""]
    else if s[0] == '\n' then [""] + Split(s[1..])
    else Push(s[0], Split(s[1..]))
  }

  lemma SplitFirst(s: string)
    requires s != ""
    ensures Split(s) == if s[0] == '\n' then [""] + Split(s[1..]) else Push(s[0], Split(s[1..]))
  {}

  function Join(ls: seq<string>): string {
    if |ls| == 0 then ""
    else if |ls| == 1 then ls[0]
    else ls[0] + "\n" + Join(ls[1..])
  }

  /** Two line lists put next to each other without a line break between them. */
  function Glue(x: seq<string>, y: seq<string>): seq<string>
    requires |x| >= 1 && |y| >= 1
  {
    x[..|x| - 1] + [x[|x| - 1] + y[0]] + y[1..]
  }

  lemma GlueCons(h: string, x: seq<string>, y: seq<string>)
    requires |x| >= 1 && |y| >= 1
    ensures Glue([h] + x, y) == [h] + Glue(x, y)
  {
    assert ([h] + x)[..|x|] == [h] + x[..|x| - 1];
  }

  lemma GluePush(c: char, x: seq<string>, y: seq<string>)
    requires |x| >= 1 && |y| >= 1
    ensures Glue(Push(c, x), y) == Push(c, Glue(x, y))
  {
    if |x| == 1 {
      assert [c] + (x[0] + y[0]) == ([c] + x[0]) + y[0];
    } else {
      assert Push(c, x)[..|x| - 1] == [[c] + x[0]] + x[1..|x| - 1];
    }
  }

  /** Splitting distributes over concatenation: only the seam changes. */
  lemma {:induction false} SplitConcat(a: string, b: string)
    ensures Split(a + b) == Glue(Split(a), Split(b))
  {
    if a == "" {
      assert a + b == b;
      assert "" + Split(b)[0] == Split(b)[0];
    } else {
      assert (a + b)[1..] == a[1..] + b;
      SplitConcat(a[1..], b);
      if a[0] == '\n' {
        GlueCons("", Split(a[1..]), Split(b));
      } else {
        GluePush(a[0], Split(a[1..]), Split(b));
      }
    }
  }

  /** A line break in the middle separates the two line lists. */
  lemma {:induction false} SplitAtBreak(a: string, b: string)
    ensures Split(a + "\n" + b) == Split(a) + Split(b)
  {
    var s := a + "\n" + b;
    if a == "" {
      assert s[1..] == b;
    } else {
      assert s[1..] == a[1..] + "\n" + b;
      SplitAtBreak(a[1..], b);
      PushConcat(a[0], Split(a[1..]), Split(b));
    }
  }

  lemma {:induction false} SplitOneLine(l: string)
    requires OneLine(l)
    ensures Split(l) == [l]
  {
    if l != "" {
      SplitOneLine(l[1..]);
      assert [l[0]] + l[1..] == l;
    }
  }

  /** Joining undoes splitting. */
  lemma {:induction false} JoinSplit(s: string)
    ensures Join(Split(s)) == s
  {
    if s != "" {
      JoinSplit(s[1..]);
      var rest := Split(s[1..]);
      if s[0] == '\n' {
        assert ([""] + rest)[1..] == rest;
        assert s == "" + "\n" + s[1..];
      } else {
        assert ([[s[0]] + rest[0]] + rest[1..])[1..] == rest[1..];
        assert s == [s[0]] + s[1..];
      }
    }
  }

  /** Splitting undoes joining, for a non-empty list of single lines. */
  lemma {:induction false} SplitJoin(ls: seq<string>)
    requires |ls| >= 1 && AllLines(ls)
    ensures Split(Join(ls)) == ls
  {
    SplitOneLine(ls[0]);
    if |ls| > 1 {
      SplitJoin(ls[1..]);
      SplitAtBreak(ls[0], Join(ls[1..]));
    }
  }

  /** Joining two lists puts one line break between them. */
  lemma {:induction false} JoinConcat(x: seq<string>, y: seq<string>)
    requires |x| >= 1 && |y| >= 1
    ensures Join(x + y) == Join(x) + "\n" + Join(y)
  {
    assert (x + y)[1..] == x[1..] + y;
    if |x| == 1 {
      assert x[1..] + y == y;
    } else {
      JoinConcat(x[1..], y);
    }
  }

  // ---- CRLF line ends ----

  predicate StartsCRLF(s: string) {
    |s| >= 2 && s[0] == '\r' && s[1] == '\n'
  }

  /** strings.ReplaceAll(s, CRLF, LF). */
  function ReplaceCRLF(s: string): string {
    if s == "" then ""
    else if StartsCRLF(s) then "\n" + ReplaceCRLF(s[2..])
    else [s[0]] + ReplaceCRLF(s[1..])
  }
}
