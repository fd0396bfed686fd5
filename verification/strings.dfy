/** The two string predicates the handlers rely on: Java's
    `String.equalsIgnoreCase` and Apache Commons' `StringUtils.isBlank`. */
module Strings {
  import opened Results

  /** Lower-cases an ASCII letter and leaves every other character alone. */
  function ToLower(c: char): (r: char)
    ensures 'A' <= c <= 'Z' ==> r as int == c as int + 32
    ensures !('A' <= c <= 'Z') ==> r == c
  {
    if 'A' <= c <= 'Z' then (c as int + 32) as char else c
  }

  /** Upper-cases an ASCII letter and leaves every other character alone. */
  function ToUpper(c: char): (r: char)
    ensures 'a' <= c <= 'z' ==> r as int == c as int - 32
    ensures !('a' <= c <= 'z') ==> r == c
  {
    if 'a' <= c <= 'z' then (c as int - 32) as char else c
  }

  /** The per-character test of `equalsIgnoreCase`: equal, equal once
      upper-cased, or equal once upper-cased and lower-cased again. */
  predicate CharEqualsIgnoreCase(a: char, b: char) {
    a == b || ToUpper(a) == ToUpper(b) || ToLower(ToUpper(a)) == ToLower(ToUpper(b))
  }

  /** `s.equalsIgnoreCase(t)` for two non-null strings: same length and every
      pair of characters at the same position matches ignoring case. */
  predicate EqualsIgnoreCase(s: string, t: string) {
    |s| == |t| && forall i :: 0 <= i < |s| ==> CharEqualsIgnoreCase(s[i], t[i])
  }

  /** The string with every ASCII upper-case letter lowered: an independent
      reference for comparing strings without regard to case. */
  function Lowered(s: string): (r: string)
    ensures |r| == |s|
    ensures forall i :: 0 <= i < |s| ==> r[i] == ToLower(s[i])
  {
    if |s| == 0 then "" else [ToLower(s[0])] + Lowered(s[1..])
  }

  /** Two characters match ignoring case exactly when their lower-case forms agree. */
  lemma CharEqualsIgnoreCaseIffLower(a: char, b: char)
    ensures CharEqualsIgnoreCase(a, b) <==> ToLower(a) == ToLower(b)
  {
  }

  /** Case-insensitive equality is equality of the lowered strings. */
  lemma EqualsIgnoreCaseIffLowered(s: string, t: string)
    ensures EqualsIgnoreCase(s, t) <==> Lowered(s) == Lowered(t)
  {
    if EqualsIgnoreCase(s, t) {
      forall i | 0 <= i < |s|
        ensures Lowered(s)[i] == Lowered(t)[i]
      {
        CharEqualsIgnoreCaseIffLower(s[i], t[i]);
      }
    }
    if Lowered(s) == Lowered(t) {
      forall i | 0 <= i < |s|
        ensures CharEqualsIgnoreCase(s[i], t[i])
      {
        assert Lowered(s)[i] == Lowered(t)[i];
        CharEqualsIgnoreCaseIffLower(s[i], t[i]);
      }
    }
  }

  /** Case-insensitive equality is an equivalence relation. */
  lemma EqualsIgnoreCaseEquivalence(s: string, t: string, u: string)
    ensures EqualsIgnoreCase(s, s)
    ensures EqualsIgnoreCase(s, t) ==> EqualsIgnoreCase(t, s)
    ensures EqualsIgnoreCase(s, t) && EqualsIgnoreCase(t, u) ==> EqualsIgnoreCase(s, u)
  {
    EqualsIgnoreCaseIffLowered(s, s);
    EqualsIgnoreCaseIffLowered(s, t);
    EqualsIgnoreCaseIffLowered(t, s);
    EqualsIgnoreCaseIffLowered(t, u);
    EqualsIgnoreCaseIffLowered(s, u);
  }

  /** Java's `Character.isWhitespace`: the ASCII controls tab to carriage
      return, the four information separators, and the Unicode space, line
      and paragraph separators other than the three no-break spaces. */
  predicate IsWhitespace(c: char) {
    var n := c as int;
    || 0x09 <= n <= 0x0D
    || 0x1C <= n <= 0x20
    || n == 0x1680
    || 0x2000 <= n <= 0x2006
    || 0x2008 <= n <= 0x200A
    || n == 0x2028 || n == 0x2029 || n == 0x205F || n == 0x3000
  }

  /** `StringUtils.isBlank`: null, empty, or whitespace only. */
  function IsBlank(s: Option<string>): (b: bool)
    ensures s.None? || s == Some([]) ==> b
    ensures s.Some? && |s.value| > 0 && !IsWhitespace(s.value[0]) ==> !b
    ensures s.Some? && |s.value| > 0 && !IsWhitespace(s.value[|s.value| - 1]) ==> !b
  {
    s.None? || forall i :: 0 <= i < |s.value| ==> IsWhitespace(s.value[i])
  }

  /** A string is blank exactly when both halves of any split of it are:
      blankness looks at each character on its own. */
  lemma {:induction false} BlankConcat(a: string, b: string)
    ensures IsBlank(Some(a + b)) <==> IsBlank(Some(a)) && IsBlank(Some(b))
  {
    if IsBlank(Some(a)) && IsBlank(Some(b)) {
      forall i | 0 <= i < |a + b| ensures IsWhitespace((a + b)[i]) {
        if i < |a| { assert (a + b)[i] == a[i]; } else { assert (a + b)[i] == b[i - |a|]; }
      }
    }
    if IsBlank(Some(a + b)) {
      forall i | 0 <= i < |a| ensures IsWhitespace(a[i]) {
        assert (a + b)[i] == a[i];
      }
      forall i | 0 <= i < |b| ensures IsWhitespace(b[i]) {
        assert (a + b)[|a| + i] == b[i];
      }
    }
  }
}
