/** Character classes and string operations shared by the Python backend and the
    JavaScript client, with the exact whitespace sets each language uses. */
module Text {

  /** Python's `str.isspace`: the characters `str.strip()` removes. */
  predicate IsPyWhitespace(c: char) {
    var n := c as int;
    (0x09 <= n <= 0x0D) || (0x1C <= n <= 0x20) || n == 0x85 || n == 0xA0 || n == 0x1680
    || (0x2000 <= n <= 0x200A) || n == 0x2028 || n == 0x2029 || n == 0x202F || n == 0x205F
    || n == 0x3000
  }

  /** ECMAScript WhiteSpace and LineTerminator: the characters of `\s`, `trim()` and
      the leading blanks `parseInt` skips. */
  predicate IsJsWhitespace(c: char) {
    var n := c as int;
    (0x09 <= n <= 0x0D) || n == 0x20 || n == 0xA0 || n == 0x1680 || (0x2000 <= n <= 0x200A)
    || n == 0x2028 || n == 0x2029 || n == 0x202F || n == 0x205F || n == 0x3000 || n == 0xFEFF
  }

  /** Drops the leading characters that satisfy `ws`. */
  function TrimStart(s: string, ws: char -> bool): (r: string)
    ensures |r| <= |s| && r == s[|s| - |r|..]
    ensures forall k :: 0 <= k < |s| - |r| ==> ws(s[k])
    ensures r == [] || !ws(r[0])
  {
    if |s| > 0 && ws(s[0]) then TrimStart(s[1..], ws) else s
  }

  /** Drops the trailing characters that satisfy `ws`. */
  function TrimEnd(s: string, ws: char -> bool): (r: string)
    ensures |r| <= |s| && r == s[..|r|]
    ensures forall k :: |r| <= k < |s| ==> ws(s[k])
    ensures r == [] || !ws(r[|r| - 1])
  {
    if |s| > 0 && ws(s[|s| - 1]) then TrimEnd(s[..|s| - 1], ws) else s
  }

  /** Drops the characters satisfying `ws` at both ends. */
  function Trim(s: string, ws: char -> bool): (r: string)
    ensures |r| <= |s|
    ensures r == [] || (!ws(r[0]) && !ws(r[|r| - 1]))
  {
    TrimEnd(TrimStart(s, ws), ws)
  }

  /** A string whose ends are not whitespace is left alone by `Trim`. */
  lemma TrimOfTrimmed(s: string, ws: char -> bool)
    requires s == [] || (!ws(s[0]) && !ws(s[|s| - 1]))
    ensures Trim(s, ws) == s
  {
  }

  /** Python `s.strip()`. */
  function PyStrip(s: string): (r: string)
    ensures r == [] || (!IsPyWhitespace(r[0]) && !IsPyWhitespace(r[|r| - 1]))
  {
    Trim(s, IsPyWhitespace)
  }

  /** JavaScript `s.trim()`. */
  function JsTrim(s: string): (r: string)
    ensures r == [] || (!IsJsWhitespace(r[0]) && !IsJsWhitespace(r[|r| - 1]))
  {
    Trim(s, IsJsWhitespace)
  }

  /** Lower-casing of one character, for the ASCII letters. */
  function LowerChar(c: char): char {
    if 'A' <= c <= 'Z' then (c as int + 32) as char else c
  }

  /** `s.lower()` on ASCII text. */
  function Lower(s: string): (r: string)
    ensures |r| == |s|
    ensures forall i :: 0 <= i < |s| ==> r[i] == LowerChar(s[i])
  {
    seq(|s|, i requires 0 <= i < |s| => LowerChar(s[i]))
  }

  /** `sub in s` for strings: `sub` occurs contiguously somewhere in `s`. */
  predicate IsSubstring(sub: string, s: string)
    decreases |s|
  {
    StartsWith(s, sub) || (|s| > 0 && IsSubstring(sub, s[1..]))
  }

  /** `s.startswith(p)` / `s.startsWith(p)`. */
  predicate StartsWith(s: string, p: string) {
    |p| <= |s| && s[..|p|] == p
  }

  /** The empty string occurs in every string. */
  lemma EmptyIsSubstring(s: string)
    ensures IsSubstring("", s)
  {

  }

  /** Every string occurs in itself. */
  lemma SubstringReflexive(s: string)
    ensures IsSubstring(s, s)
  {
    assert s[..|s|] == s;
  }
}
