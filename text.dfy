/** Whitespace trimming as JavaScript's `String.prototype.trim` does it. */
module Text {

  /** The WhiteSpace and LineTerminator code points of ECMAScript, which `trim` removes. */
  predicate IsWhitespace(c: char) {
    || c == '\t' || c == '\n' || c == '\U{000B}' || c == '\U{000C}' || c == '\r' || c == ' '
    || c == '\U{00A0}' || c == '\U{1680}' || ('\U{2000}' <= c <= '\U{200A}')
    || c == '\U{2028}' || c == '\U{2029}' || c == '\U{202F}' || c == '\U{205F}'
    || c == '\U{3000}' || c == '\U{FEFF}'
  }

  /** How many whitespace characters `s` starts with. */
  function Leading(s: string): (n: nat)
    ensures n <= |s|
  {
    if s == [] || !IsWhitespace(s[0]) then 0 else 1 + Leading(s[1..])
  }

  /** How many whitespace characters `s` ends with. */
  function Trailing(s: string): (n: nat)
    ensures n <= |s|
  {
    if s == [] || !IsWhitespace(s[|s| - 1]) then 0 else 1 + Trailing(s[..|s| - 1])
  }

  /** The leading run is all whitespace and is followed by a character that is not. */
  lemma {:induction false} LeadingRun(s: string)
    ensures forall i :: 0 <= i < Leading(s) ==> IsWhitespace(s[i])
    ensures Leading(s) < |s| ==> !IsWhitespace(s[Leading(s)])
  {
    if s != [] && IsWhitespace(s[0]) {
      LeadingRun(s[1..]);
      forall i | 1 <= i < Leading(s)
        ensures IsWhitespace(s[i])
      {
        assert s[i] == s[1..][i - 1];
      }
    }
  }

  /** The trailing run is all whitespace and is preceded by a character that is not. */
  lemma {:induction false} TrailingRun(s: string)
    ensures forall i :: |s| - Trailing(s) <= i < |s| ==> IsWhitespace(s[i])
    ensures Trailing(s) < |s| ==> !IsWhitespace(s[|s| - Trailing(s) - 1])
  {
    if s != [] && IsWhitespace(s[|s| - 1]) {
      var p := s[..|s| - 1];
      TrailingRun(p);
      forall i | |s| - Trailing(s) <= i < |s| - 1
        ensures IsWhitespace(s[i])
      {
        assert s[i] == p[i];
      }
    }
  }

  /** `s.trimStart()`: the suffix that starts at the first character that is not whitespace. */
  function TrimStart(s: string): string {
    s[Leading(s)..]
  }

  /** `s.trimEnd()`: the prefix that ends at the last character that is not whitespace. */
  function TrimEnd(s: string): string {
    s[..|s| - Trailing(s)]
  }

  /** `s.trim()`: whitespace dropped at both ends. */
  function Trim(s: string): (r: string)
    ensures |r| <= |s|
  {
    TrimEnd(TrimStart(s))
  }

  /** `!s.trim()`: nothing but whitespace, so the trimmed string is empty and falsy (see `TrimIsInfix`). */
  predicate IsBlank(s: string) {
    forall i :: 0 <= i < |s| ==> IsWhitespace(s[i])
  }

  /** The trimmed string is the slice of `s` between its leading and its trailing whitespace. */
  lemma TrimSlice(s: string)
    ensures Leading(s) + |Trim(s)| <= |s|
    ensures Trim(s) == s[Leading(s)..Leading(s) + |Trim(s)|]
    ensures |s| - Leading(s) - |Trim(s)| == Trailing(TrimStart(s))
  {
    var k := Leading(s);
    var t := TrimStart(s);
    assert Trim(s) == t[..|t| - Trailing(t)];
    assert t[..|t| - Trailing(t)] == s[k..k + |t| - Trailing(t)];
  }

  /** The trimmed string is the infix of `s` left once whitespace is dropped at both ends; it
      neither starts nor ends with whitespace, and it is empty exactly when `s` is blank. */
  lemma TrimIsInfix(s: string)
    ensures var r := Trim(s); var k := Leading(s);
      && k + |r| <= |s| && r == s[k..k + |r|]
      && (forall i :: 0 <= i < k ==> IsWhitespace(s[i]))
      && (forall i :: k + |r| <= i < |s| ==> IsWhitespace(s[i]))
      && (r == [] || (!IsWhitespace(r[0]) && !IsWhitespace(r[|r| - 1])))
      && (r == [] <==> IsBlank(s))
  {
    var k := Leading(s);
    var t := TrimStart(s);
    var r := Trim(s);
    TrimSlice(s);
    LeadingRun(s);
    TrailingRun(t);
    forall i | k + |r| <= i < |s|
      ensures IsWhitespace(s[i])
    {
      assert s[i] == t[i - k];
    }
    if r != [] {
      assert r[0] == s[k];
      assert r[|r| - 1] == t[|t| - Trailing(t) - 1];
    } else {
      assert IsBlank(s);
    }
  }

  /** Trimming a trimmed string changes nothing. */
  lemma TrimIdempotent(s: string)
    ensures Trim(Trim(s)) == Trim(s)
  {
    var r := Trim(s);
    TrimIsInfix(s);
    if r != [] {
      assert Leading(r) == 0;
      assert TrimStart(r) == r;
      assert Trailing(r) == 0;
    }
  }
}
