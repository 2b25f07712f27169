/** White space as Go's strings and unicode packages see it. */
module GoText {

  /** unicode.IsSpace. */
  predicate IsSpace(c: char) {
    || c == ' ' || '\t' <= c <= '\r' || c == '\U{0085}' || c == '\U{00A0}'
    || c == '\U{1680}' || '\U{2000}' <= c <= '\U{200A}' || c == '\U{2028}' || c == '\U{2029}'
    || c == '\U{202F}' || c == '\U{205F}' || c == '\U{3000}'
  }

  /** The code points with the property White_Space of the Unicode standard. */
  const WHITE_SPACE: set<int> := {
    0x09, 0x0A, 0x0B, 0x0C, 0x0D, 0x20, 0x85, 0xA0, 0x1680, 0x2000, 0x2001, 0x2002, 0x2003, 0x2004, 0x2005,
    0x2006, 0x2007, 0x2008, 0x2009, 0x200A, 0x2028, 0x2029, 0x202F, 0x205F, 0x3000
  }

  lemma SpaceIsWhiteSpace(c: char)
    ensures IsSpace(c) <==> c as int in WHITE_SPACE
  {}

  predicate AllSpace(s: string) {
    forall k :: 0 <= k < |s| ==> IsSpace(s[k])
  }

  function TrimLeft(s: string): (r: string)
    ensures r != "" ==> !IsSpace(r[0])
    ensures |r| <= |s| && s[|s| - |r|..] == r
    ensures forall k :: 0 <= k < |s| - |r| ==> IsSpace(s[k])
  {
    if s != "" && IsSpace(s[0]) then TrimLeft(s[1..]) else s
  }

  function TrimRight(s: string): (r: string)
    ensures r != "" ==> !IsSpace(r[|r| - 1])
    ensures r <= s
    ensures forall k :: |r| <= k < |s| ==> IsSpace(s[k])
  {
    if s != "" && IsSpace(s[|s| - 1]) then TrimRight(s[..|s| - 1]) else s
  }

  /** strings.TrimSpace. */
  function TrimSpace(s: string): string {
    TrimRight(TrimLeft(s))
  }

  /** A trimmed text is empty or has visible characters at both ends. */
  predicate Trimmed(s: string) {
    s != "" ==> !IsSpace(s[0]) && !IsSpace(s[|s| - 1])
  }

  lemma TrimSpaceTrims(s: string)
    ensures Trimmed(TrimSpace(s))
    ensures Trimmed(s) ==> TrimSpace(s) == s
  {}

  /** Trimming removes white space from both ends and nothing else. */
  lemma TrimSpaceParts(s: string) returns (left: string, right: string)
    ensures AllSpace(left) && AllSpace(right) && s == left + TrimSpace(s) + right
  {
    hide TrimLeft, TrimRight;
    var t := TrimLeft(s);
    left := s[..|s| - |t|];
    right := t[|TrimRight(t)|..];
    assert t == TrimRight(t) + right;
    assert s == left + t;
  }

  /** A text trims to nothing exactly when all of it is white space. */
  lemma TrimmedVisible(s: string)
    ensures TrimSpace(s) == "" <==> AllSpace(s)
  {
    hide TrimLeft, TrimRight;
    var left, right := TrimSpaceParts(s);
    var t := TrimSpace(s);
    TrimSpaceTrims(s);
    assert t != "" ==> t[0] == s[|left|];
    assert t == "" ==> s == left + right;
  }
}
