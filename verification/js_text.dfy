/**
 * The ECMAScript string primitives the application relies on:
 * `String.prototype.trim`, `String.prototype.startsWith` and `parseInt(s, 10)`.
 */
module JsText {
  import opened Wrappers

  /**
   * The characters that `trim` and `parseInt` skip: the WhiteSpace and
   * LineTerminator code points of ECMA-262 (sections 12.2 and 12.3), with the
   * Unicode space separators (category Zs) written out.
   */
  predicate IsWhiteSpace(c: char) {
    || c == '\t' || c == '\n' || c == '\U{0B}' || c == '\U{0C}' || c == '\r'
    || c == ' ' || c == '\U{A0}' || c == '\U{1680}'
    || ('\U{2000}' <= c <= '\U{200A}')
    || c == '\U{2028}' || c == '\U{2029}' || c == '\U{202F}' || c == '\U{205F}'
    || c == '\U{3000}' || c == '\U{FEFF}'
  }

  predicate IsDigit(c: char) {
    '0' <= c <= '9'
  }

  /** Number of white-space characters at the start of `s`. */
  function LeadingWhiteSpace(s: string): (k: nat)
    ensures k <= |s|
    ensures forall i :: 0 <= i < k ==> IsWhiteSpace(s[i])
    ensures k < |s| ==> !IsWhiteSpace(s[k])
  {
    if |s| == 0 || !IsWhiteSpace(s[0]) then 0 else 1 + LeadingWhiteSpace(s[1..])
  }

  /** Number of white-space characters at the end of `s`. */
  function TrailingWhiteSpace(s: string): (k: nat)
    ensures k <= |s|
    ensures forall i :: |s| - k <= i < |s| ==> IsWhiteSpace(s[i])
    ensures k < |s| ==> !IsWhiteSpace(s[|s| - k - 1])
  {
    if |s| == 0 || !IsWhiteSpace(s[|s| - 1]) then 0 else 1 + TrailingWhiteSpace(s[..|s| - 1])
  }

  function TrimStart(s: string): string {
    s[LeadingWhiteSpace(s)..]
  }

  /** `s.trim()`: `s` without its leading and trailing white space. */
  function Trim(s: string): (r: string)
    ensures |r| <= |s|
    ensures |r| > 0 ==> !IsWhiteSpace(r[0]) && !IsWhiteSpace(r[|r| - 1])
  {
    var u := TrimStart(s);
    u[..|u| - TrailingWhiteSpace(u)]
  }

  /** `!s.trim()` holds exactly when `s` consists of white space only (or is empty). */
  lemma TrimEmptyIff(s: string)
    ensures Trim(s) == [] <==> forall i :: 0 <= i < |s| ==> IsWhiteSpace(s[i])
  {
    var k := LeadingWhiteSpace(s);
    var u := s[k..];
    if k < |s| {
      assert u[0] == s[k];
      assert TrailingWhiteSpace(u) < |u|;
      assert |Trim(s)| > 0;
    }
  }

  /** Trimming keeps the characters between the white space untouched. */
  lemma TrimKeepsInner(lead: string, inner: string, trail: string)
    requires forall i :: 0 <= i < |lead| ==> IsWhiteSpace(lead[i])
    requires forall i :: 0 <= i < |trail| ==> IsWhiteSpace(trail[i])
    requires |inner| > 0 && !IsWhiteSpace(inner[0]) && !IsWhiteSpace(inner[|inner| - 1])
    ensures Trim(lead + inner + trail) == inner
  {
    var s := lead + inner + trail;
    LeadingCount(lead, inner + trail);
    assert s == lead + (inner + trail);
    assert TrimStart(s) == inner + trail;
    TrailingCount(inner, trail);
  }

  lemma {:induction false} LeadingCount(lead: string, rest: string)
    requires forall i :: 0 <= i < |lead| ==> IsWhiteSpace(lead[i])
    requires |rest| > 0 && !IsWhiteSpace(rest[0])
    ensures LeadingWhiteSpace(lead + rest) == |lead|
  {
    if |lead| > 0 {
      assert (lead + rest)[1..] == lead[1..] + rest;
      LeadingCount(lead[1..], rest);
    }
  }

  lemma {:induction false} TrailingCount(rest: string, trail: string)
    requires forall i :: 0 <= i < |trail| ==> IsWhiteSpace(trail[i])
    requires |rest| > 0 && !IsWhiteSpace(rest[|rest| - 1])
    ensures TrailingWhiteSpace(rest + trail) == |trail|
  {
    if |trail| > 0 {
      var s := rest + trail;
      assert s[|s| - 1] == trail[|trail| - 1];
      assert s[..|s| - 1] == rest + trail[..|trail| - 1];
      TrailingCount(rest, trail[..|trail| - 1]);
    }
  }

  /** `s.startsWith(prefix)`. */
  predicate StartsWith(s: string, prefix: string) {
    |prefix| <= |s| && s[..|prefix|] == prefix
  }

  /** Number of decimal digits at the start of `s`. */
  function LeadingDigits(s: string): (k: nat)
    ensures k <= |s|
    ensures forall i :: 0 <= i < k ==> IsDigit(s[i])
    ensures k < |s| ==> !IsDigit(s[k])
  {
    if |s| == 0 || !IsDigit(s[0]) then 0 else 1 + LeadingDigits(s[1..])
  }

  function DigitValue(c: char): nat
    requires IsDigit(c)
  {
    c as int - '0' as int
  }

  /** The value of a string of decimal digits. */
  function DigitsValue(ds: string): nat
    requires forall i :: 0 <= i < |ds| ==> IsDigit(ds[i])
  {
    if |ds| == 0 then 0
    else 10 * DigitsValue(ds[..|ds| - 1]) + DigitValue(ds[|ds| - 1])
  }

  /**
   * `parseInt(s, 10)`: skip leading white space, read an optional sign and the
   * longest run of decimal digits; `None` stands for `NaN` (no digit found).
   */
  function ParseInt(s: string): Option<int> {
    ParseSigned(TrimStart(s))
  }

  function ParseSigned(t: string): Option<int> {
    if |t| > 0 && t[0] == '-' then
      match ParseUnsigned(t[1..])
      case Some(v) => Some(-v)
      case None => None
    else if |t| > 0 && t[0] == '+' then ParseUnsigned(t[1..])
    else ParseUnsigned(t)
  }

  function ParseUnsigned(u: string): Option<int> {
    var k := LeadingDigits(u);
    if k == 0 then None else Some(DigitsValue(u[..k]) as int)
  }

  /** The decimal rendering of a natural number, as `String(n)` writes it. */
  function DecimalString(n: nat): (r: string)
    ensures |r| > 0
    ensures forall i :: 0 <= i < |r| ==> IsDigit(r[i])
  {
    if n < 10 then [('0' as int + n) as char]
    else DecimalString(n / 10) + [('0' as int + n % 10) as char]
  }

  lemma {:induction false} DecimalValue(n: nat)
    ensures DigitsValue(DecimalString(n)) == n
  {
    var r := DecimalString(n);
    if n >= 10 {
      assert r[..|r| - 1] == DecimalString(n / 10);
      DecimalValue(n / 10);
    }
  }

  /** `parseInt` reads back what `String(n)` wrote, also with a leading minus sign. */
  lemma ParseDecimal(n: nat)
    ensures ParseInt(DecimalString(n)) == Some(n as int)
    ensures ParseInt("-" + DecimalString(n)) == Some(-(n as int))
  {
    var r := DecimalString(n);
    DecimalValue(n);
    ParseAllDigits(r);
    ParseDigits(r);
    ParseMinus(r, n);
  }

  lemma ParseDigits(r: string)
    requires |r| > 0 && forall i :: 0 <= i < |r| ==> IsDigit(r[i])
    ensures ParseInt(r) == Some(DigitsValue(r) as int)
  {
    assert TrimStart(r) == r by { assert !IsWhiteSpace(r[0]) by { assert IsDigit(r[0]); } }
    assert r[0] != '-' && r[0] != '+' by { assert IsDigit(r[0]); }
    ParseAllDigits(r);
  }

  /** A leading minus sign is not white space, so `parseInt` reads it as the sign. */
  lemma ParseMinus(r: string, v: int)
    requires ParseUnsigned(r) == Some(v)
    ensures ParseInt("-" + r) == Some(-v)
  {
    var m := "-" + r;
    assert m[0] == '-' && m[1..] == r;
    assert !IsWhiteSpace(m[0]);
    assert LeadingWhiteSpace(m) == 0;
    assert TrimStart(m) == m;
  }

  lemma ParseAllDigits(r: string)
    requires |r| > 0 && forall i :: 0 <= i < |r| ==> IsDigit(r[i])
    ensures ParseUnsigned(r) == Some(DigitsValue(r) as int)
  {
    AllDigits(r);
    assert r[..|r|] == r;
  }

  lemma {:induction false} AllDigits(s: string)
    requires forall i :: 0 <= i < |s| ==> IsDigit(s[i])
    ensures LeadingDigits(s) == |s|
  {
    if |s| > 0 {
      AllDigits(s[1..]);
    }
  }
}
