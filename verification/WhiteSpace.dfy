/**
 White space as Go's unicode package lists it, and trimming by it (strings.TrimSpace).
 */
module WhiteSpace {

  predicate IsSpace(c: char) {
    '\t' <= c <= '\r' || c == ' ' || c == '\U{85}' || c == '\U{A0}' || c == '\U{1680}'
    || '\U{2000}' <= c <= '\U{200A}' || c == '\U{2028}' || c == '\U{2029}' || c == '\U{202F}'
    || c == '\U{205F}' || c == '\U{3000}'
  }

  /** The characters of Unicode's White_Space property. */
  const SPACES: set<char> := {
    '\t', '\n', '\U{B}', '\U{C}', '\r', ' ', '\U{85}', '\U{A0}', '\U{1680}', '\U{2000}', '\U{2001}', '\U{2002}',
    '\U{2003}', '\U{2004}', '\U{2005}', '\U{2006}', '\U{2007}', '\U{2008}', '\U{2009}', '\U{200A}', '\U{2028}',
    '\U{2029}', '\U{202F}', '\U{205F}', '\U{3000}'}

  lemma SpacesAre(c: char)
    ensures IsSpace(c) <==> c in SPACES
  {
  }

  predicate Blank(s: string) {
    forall c :: c in s ==> IsSpace(c)
  }

  function Trim(s: string): string {
    if s == "" then ""
    else if IsSpace(s[0]) then Trim(s[1..])
    else if IsSpace(s[|s| - 1]) then Trim(s[..|s| - 1])
    else s
  }

  /** Trimming is idempotent, and leaves nothing exactly of a blank text. */
  lemma {:induction false} TrimTwice(s: string)
    ensures Trim(Trim(s)) == Trim(s) && (Trim(s) == "" <==> Blank(s))
    decreases |s|
  {
    if s != "" {
      if IsSpace(s[0]) {
        TrimTwice(s[1..]);
        assert s == [s[0]] + s[1..];
      } else if IsSpace(s[|s| - 1]) {
        TrimTwice(s[..|s| - 1]);
        assert s[0] in s[..|s| - 1];
        assert s[0] in s;
      } else {
        assert s[0] in s;
      }
    }
  }

  /** Trimming takes white space off both ends and nothing else. */
  lemma {:induction false} TrimTakesTheEnds(s: string) returns (before: string, after: string)
    ensures s == before + Trim(s) + after && Blank(before) && Blank(after)
    ensures Trim(s) != "" ==> !IsSpace(Trim(s)[0]) && !IsSpace(Trim(s)[|Trim(s)| - 1])
    decreases |s|
  {
    before, after := "", "";
    if s != "" {
      if IsSpace(s[0]) {
        var rest;
        rest, after := TrimTakesTheEnds(s[1..]);
        before := [s[0]] + rest;
        assert s == [s[0]] + (rest + Trim(s) + after) == before + Trim(s) + after;
      } else if IsSpace(s[|s| - 1]) {
        var rest;
        before, rest := TrimTakesTheEnds(s[..|s| - 1]);
        after := rest + [s[|s| - 1]];
        assert s == (before + Trim(s) + rest) + [s[|s| - 1]] == before + Trim(s) + after;
      } else {
        assert "" + s + "" == s;
      }
    }
  }
}
