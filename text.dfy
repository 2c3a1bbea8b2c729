/** JavaScript's String.prototype.trim, as getFormData applies it to every input value. */
module Text {

  /** The characters trim removes: ECMAScript WhiteSpace (tab, vertical tab, form feed,
      space, no-break space, byte-order mark and the Zs space separators) and
      LineTerminator (line feed, carriage return, line and paragraph separators). */
  predicate IsWhitespace(c: char) {
    c == '\t' || c == '\n' || c == '\U{B}' || c == '\U{C}' || c == '\r' || c == ' ' ||
    c == '\U{A0}' || c == '\U{1680}' || ('\U{2000}' <= c <= '\U{200A}') ||
    c == '\U{2028}' || c == '\U{2029}' || c == '\U{202F}' || c == '\U{205F}' ||
    c == '\U{3000}' || c == '\U{FEFF}'
  }

  /** Neither the first nor the last character of s is whitespace. */
  predicate NoOuterWhitespace(s: string) {
    |s| == 0 || (!IsWhitespace(s[0]) && !IsWhitespace(s[|s| - 1]))
  }

  /** t sits at offset a of s, and everything of s before and after it is whitespace. */
  predicate Strips(s: string, a: int, t: string) {
    0 <= a && a + |t| <= |s| && s[a..a + |t|] == t &&
    (forall i :: 0 <= i < a ==> IsWhitespace(s[i])) &&
    (forall i :: a + |t| <= i < |s| ==> IsWhitespace(s[i]))
  }

  /** The number of whitespace characters s starts with. */
  function Leading(s: string): (n: nat)
    ensures n <= |s|
    ensures forall i :: 0 <= i < n ==> IsWhitespace(s[i])
    ensures n < |s| ==> !IsWhitespace(s[n])
  {
    if |s| > 0 && IsWhitespace(s[0]) then 1 + Leading(s[1..]) else 0
  }

  /** The number of whitespace characters s ends with. */
  function Trailing(s: string): (n: nat)
    ensures n <= |s|
    ensures forall i :: |s| - n <= i < |s| ==> IsWhitespace(s[i])
    ensures n < |s| ==> !IsWhitespace(s[|s| - 1 - n])
  {
    if |s| > 0 && IsWhitespace(s[|s| - 1]) then 1 + Trailing(s[..|s| - 1]) else 0
  }

  /** Leading whitespace removed. */
  function TrimStart(s: string): string {
    s[Leading(s)..]
  }

  /** Trailing whitespace removed. */
  function TrimEnd(s: string): string {
    s[..|s| - Trailing(s)]
  }

  /** trim(): whitespace removed at both ends, and only there; what is kept starts right
      after the leading whitespace. */
  function Trim(s: string): (r: string)
    ensures NoOuterWhitespace(r)
    ensures Strips(s, Leading(s), r)
  {
    TrimEnd(TrimStart(s))
  }

  /** There is only one way to cut whitespace margins off s so that no outer whitespace
      is left. */
  lemma StripsUnique(s: string, a: int, t: string, b: int, u: string)
    requires Strips(s, a, t) && NoOuterWhitespace(t)
    requires Strips(s, b, u) && NoOuterWhitespace(u)
    ensures t == u
  {
    if t != [] {
      assert s[a] == t[0] && s[a + |t| - 1] == t[|t| - 1];
    }
    if u != [] {
      assert s[b] == u[0] && s[b + |u| - 1] == u[|u| - 1];
    }
    if t != [] && u != [] {
      assert a == b;
      assert a + |t| == b + |u|;
    }
  }

  /** Trim is the unique whitespace-free core: any such cut of s is Trim(s). */
  lemma TrimCharacterized(s: string, a: int, t: string)
    requires Strips(s, a, t) && NoOuterWhitespace(t)
    ensures Trim(s) == t
  {
    StripsUnique(s, a, t, Leading(s), Trim(s));
  }

  /** Trim empties a string exactly when every character of it is whitespace. */
  lemma TrimBlank(s: string)
    ensures (forall i :: 0 <= i < |s| ==> IsWhitespace(s[i])) <==> Trim(s) == []
  {
    if forall i :: 0 <= i < |s| ==> IsWhitespace(s[i]) {
      TrimCharacterized(s, 0, []);
    }
  }

  /** A string with no outer whitespace is left as it is. */
  lemma TrimClean(s: string)
    requires NoOuterWhitespace(s)
    ensures Trim(s) == s
  {
    TrimCharacterized(s, 0, s);
  }

  /** Trimming twice is trimming once. */
  lemma TrimIdempotent(s: string)
    ensures Trim(Trim(s)) == Trim(s)
  {
    TrimClean(Trim(s));
  }
}
