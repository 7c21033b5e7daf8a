/** JavaScript's `parseInt(s)` with no radix, on the integers it can return: leading
    white space is skipped, one sign is read, a '0x'/'0X' prefix selects base 16, and
    the longest run of digits of the base is read. `None` is NaN. */
module JsNumber {
  import opened Wrappers
  import opened Text

  /** The value of a digit in bases up to 36, case-insensitive. */
  function DigitValue(c: char): (r: Option<nat>)
    ensures r.Some? ==> r.value < 36
  {
    if '0' <= c <= '9' then Some(c as nat - '0' as nat)
    else if 'a' <= c <= 'z' then Some(c as nat - 'a' as nat + 10)
    else if 'A' <= c <= 'Z' then Some(c as nat - 'A' as nat + 10)
    else None
  }

  predicate IsDigitIn(c: char, radix: nat) {
    DigitValue(c).Some? && DigitValue(c).value < radix
  }

  /** The longest prefix of `s` made of digits of the base. */
  function LeadingDigits(s: string, radix: nat): (r: string)
    ensures |r| <= |s| && r == s[..|r|]
    ensures forall i :: 0 <= i < |r| ==> IsDigitIn(r[i], radix)
    ensures |r| < |s| ==> !IsDigitIn(s[|r|], radix)
  {
    if |s| == 0 || !IsDigitIn(s[0], radix) then []
    else [s[0]] + LeadingDigits(s[1..], radix)
  }

  /** The number a run of digits denotes, most significant first (a non-digit
      counts as 0; it is only applied to runs of digits). */
  function DigitsValue(digits: string, radix: nat): nat {
    if |digits| == 0 then 0
    else DigitsValue(digits[..|digits| - 1], radix) * radix + DigitValue(digits[|digits| - 1]).GetOr(0)
  }

  /** Whether `u` opens with a digit of the base `parseInt` reads it in: base 16
      right after a '0x'/'0X' prefix, base 10 at the start otherwise. */
  predicate OpensWithDigit(u: string) {
    if |u| >= 2 && u[0] == '0' && (u[1] == 'x' || u[1] == 'X') then |u| > 2 && IsDigitIn(u[2], 16)
    else |u| > 0 && IsDigitIn(u[0], 10)
  }

  /** The magnitude `parseInt` reads once white space and sign are gone: a
      '0x'/'0X' prefix selects base 16, and the longest run of digits of the base is
      read; no digit at all is NaN. */
  function ParseMagnitude(u: string): (r: Option<nat>)
    ensures r.None? <==> !OpensWithDigit(u)
    ensures r.Some? ==> exists k :: 0 <= k < |u| && IsDigitIn(u[k], 16)
  {
    var hex := |u| >= 2 && u[0] == '0' && (u[1] == 'x' || u[1] == 'X');
    var radix := if hex then 16 else 10;
    var body := if hex then u[2..] else u;
    var digits := LeadingDigits(body, radix);
    if |digits| == 0 then None
    else
      assert u[|u| - |body|] == digits[0];
      Some(DigitsValue(digits, radix))
  }

  /** `s` without its leading white space and without one leading sign. */
  function Unsigned(s: string): (u: string)
    ensures |u| <= |s| && u == s[|s| - |u|..]
  {
    var t := TrimStart(s, IsJsWhitespace);
    if |t| > 0 && (t[0] == '-' || t[0] == '+') then
      assert t[1..] == s[|s| - |t|..][1..];
      t[1..]
    else t
  }

  /** `parseInt(s)`: leading white space is skipped and one sign is read; NaN
      exactly when no digit of the chosen base follows them. */
  function ParseInt(s: string): (r: Option<int>)
    ensures r.None? <==> !OpensWithDigit(Unsigned(s))
    ensures r.Some? ==> exists k :: 0 <= k < |s| && IsDigitIn(s[k], 16)
  {
    var t := TrimStart(s, IsJsWhitespace);
    var negative := |t| > 0 && t[0] == '-';
    var u := Unsigned(s);
    match ParseMagnitude(u)
    case None => None
    case Some(n) =>
      var k :| 0 <= k < |u| && IsDigitIn(u[k], 16);
      assert s[|s| - |u| + k] == u[k];
      var v: int := n;
      Some(if negative then -v else v)
  }

  function DigitChar(d: nat): (c: char)
    requires d < 10
    ensures DigitValue(c) == Some(d)
  {
    ('0' as nat + d) as char
  }

  /** The decimal rendering of a natural number, without leading zeros. */
  function ShowNat(n: nat): (r: string)
    ensures |r| > 0
    ensures forall i :: 0 <= i < |r| ==> IsDigitIn(r[i], 10)
    ensures |r| > 1 ==> r[0] != '0'
  {
    if n < 10 then [DigitChar(n)]
    else ShowNat(n / 10) + [DigitChar(n % 10)]
  }

  /** `String(n)` for an integer. */
  function Show(n: int): string {
    if n < 0 then "-" + ShowNat(-n) else ShowNat(n)
  }

  lemma {:induction false} ShowNatValue(n: nat)
    ensures DigitsValue(ShowNat(n), 10) == n
  {
    if n >= 10 {
      var s := ShowNat(n);
      assert s[..|s| - 1] == ShowNat(n / 10);
      ShowNatValue(n / 10);
    }
  }

  lemma {:induction false} LeadingDigitsOfDigits(s: string, radix: nat)
    requires forall i :: 0 <= i < |s| ==> IsDigitIn(s[i], radix)
    ensures LeadingDigits(s, radix) == s
  {
    if |s| > 0 {
      LeadingDigitsOfDigits(s[1..], radix);
      assert [s[0]] + s[1..] == s;
    }
  }

  /** The magnitude of a decimal rendering reads back as the number. */
  lemma ParseMagnitudeOfShowNat(m: nat)
    ensures ParseMagnitude(ShowNat(m)) == Some(m)
  {
    var digits := ShowNat(m);
    assert !(|digits| >= 2 && digits[0] == '0');
    LeadingDigitsOfDigits(digits, 10);
    ShowNatValue(m);
  }

  /** `parseInt(String(n)) === n`: reading back the decimal rendering of an integer
      gives the integer. */
  lemma ParseShowRoundTrip(n: int)
    ensures ParseInt(Show(n)) == Some(n)
  {
    var m := if n < 0 then -n else n;
    var s := Show(n);
    assert !IsJsWhitespace(s[0]);
    assert TrimStart(s, IsJsWhitespace) == s;
    ParseMagnitudeOfShowNat(m);
    if n < 0 {
      assert s[1..] == ShowNat(m);
    } else {
      assert !(s[0] == '-' || s[0] == '+');
    }
  }
}
