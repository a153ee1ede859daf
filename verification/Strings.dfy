/** White space and words in text, as the C library and utils.h see them. */
module Strings {

  /** isspace. */
  predicate IsSpace(c: char) { c == ' ' || '\t' <= c <= '\r' }

  predicate AllSpace(s: string) { forall i | 0 <= i < |s| :: IsSpace(s[i]) }

  predicate NoSpace(s: string) { forall i | 0 <= i < |s| :: !IsSpace(s[i]) }

  function Lower(c: char): char { if 'A' <= c <= 'Z' then c - 'A' + 'a' else c }

  /** Equality but for the case of letters. */
  predicate Same(s: string, t: string) {
    |s| == |t| && forall i | 0 <= i < |t| :: Lower(s[i]) == Lower(t[i])
  }

  function SkipSpaces(s: string): (t: string)
    ensures |t| <= |s| && (t != "" ==> !IsSpace(t[0]))
  {
    if s != "" && IsSpace(s[0]) then SkipSpaces(s[1..]) else s
  }

  /** The number of characters up to the first white space. */
  function WordLength(s: string): (n: nat)
    ensures n <= |s|
  {
    if s == "" || IsSpace(s[0]) then 0 else 1 + WordLength(s[1..])
  }

  function RTrim(s: string): string {
    if s == "" || !IsSpace(s[|s| - 1]) then s else RTrim(s[..|s| - 1])
  }

  lemma {:induction false} WordEnds(w: string, rest: string)
    requires NoSpace(w) && (rest == "" || IsSpace(rest[0]))
    ensures WordLength(w + rest) == |w| && (w + rest)[..|w|] == w && (w + rest)[|w|..] == rest
    decreases |w|
  {
    if w == "" {
      assert w + rest == rest;
    } else {
      WordEnds(w[1..], rest);
      assert (w + rest)[1..] == w[1..] + rest;
    }
  }

  lemma {:induction false} SkipAll(p: string, s: string)
    requires AllSpace(p)
    ensures SkipSpaces(p + s) == SkipSpaces(s)
    decreases |p|
  {
    if p == "" {
      assert p + s == s;
    } else {
      SkipAll(p[1..], s);
      assert (p + s)[1..] == p[1..] + s;
    }
  }

  lemma {:induction false} TrimEnd(p: string, s: string)
    requires p != "" && !IsSpace(p[|p| - 1])
    ensures RTrim(p + s) == p + RTrim(s)
    decreases |s|
  {
    if s == "" {
      assert p + s == p;
    } else {
      assert (p + s)[|p + s| - 1] == s[|s| - 1];
      if IsSpace(s[|s| - 1]) {
        assert (p + s)[..|p + s| - 1] == p + s[..|s| - 1];
        TrimEnd(p, s[..|s| - 1]);
      }
    }
  }

  lemma {:induction false} TrimIsPrefix(s: string)
    ensures |RTrim(s)| <= |s| && RTrim(s) <= s
    decreases |s|
  {
    if s != "" && IsSpace(s[|s| - 1]) { TrimIsPrefix(s[..|s| - 1]); }
  }
}
