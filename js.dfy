/**
 * The few JavaScript built-ins the storefront's logic leans on, with the
 * semantics the ECMAScript language specification gives them:
 * truthiness of strings, `Number.prototype.toString` on safe non-negative
 * integers, `parseInt` without a radix, `String.prototype.toUpperCase` on
 * one character, and `Number.MAX_SAFE_INTEGER`.
 */
module Js {
  import opened Wrappers

  /** `Number.MAX_SAFE_INTEGER`, 2^53 - 1. */
  const MAX_SAFE_INTEGER: nat := 9007199254740991

  /** A string is truthy exactly when it is not empty. */
  predicate Truthy(s: string)
  {
    s != ""
  }

  /** An optional string is truthy when it is present and not empty. */
  predicate TruthyOption(s: Option<string>)
  {
    s.Some? && Truthy(s.value)
  }

  /** The characters `parseInt` strips from the front: WhiteSpace and LineTerminator. */
  predicate IsWhiteSpace(c: char)
  {
    var k := c as int;
    k == 0x09 || k == 0x0A || k == 0x0B || k == 0x0C || k == 0x0D || k == 0x20 ||
    k == 0xA0 || k == 0x1680 || (0x2000 <= k <= 0x200A) || k == 0x2028 || k == 0x2029 ||
    k == 0x202F || k == 0x205F || k == 0x3000 || k == 0xFEFF
  }

  /** A digit of base 10 or 16 (hexadecimal digits in either case). */
  predicate IsDigit(c: char, radix: nat)
  {
    ('0' <= c <= '9') || (radix == 16 && (('a' <= c <= 'f') || ('A' <= c <= 'F')))
  }

  function DigitValue(c: char, radix: nat): (d: nat)
    requires radix == 10 || radix == 16
    requires IsDigit(c, radix)
    ensures d < radix
  {
    if '0' <= c <= '9' then c as int - '0' as int
    else if 'a' <= c <= 'f' then c as int - 'a' as int + 10
    else c as int - 'A' as int + 10
  }

  function DigitChar(d: nat): (c: char)
    requires d < 10
    ensures IsDigit(c, 10) && DigitValue(c, 10) == d
  {
    ('0' as int + d) as char
  }

  /**
   * `n.toString()` for a safe non-negative integer: its decimal digits without
   * leading zeros. The digits are defined for every `n`; JavaScript agrees
   * up to 10^21, where it switches to exponent form.
   */
  function DecimalString(n: nat): (s: string)
    ensures |s| > 0
    ensures forall i :: 0 <= i < |s| ==> IsDigit(s[i], 10)
    ensures |s| > 1 ==> s[0] != '0'
  {
    if n < 10 then [DigitChar(n)] else DecimalString(n / 10) + [DigitChar(n % 10)]
  }

  /** Drops leading white space. */
  function TrimStart(s: string): (r: string)
    ensures |r| <= |s| && r == s[|s| - |r|..]
    ensures r == [] || !IsWhiteSpace(r[0])
    ensures forall i :: 0 <= i < |s| - |r| ==> IsWhiteSpace(s[i])
  {
    if s != [] && IsWhiteSpace(s[0]) then TrimStart(s[1..]) else s
  }

  /** The length of the longest prefix of `s` made of digits of the radix. */
  function DigitRun(s: string, radix: nat): (n: nat)
    requires radix == 10 || radix == 16
    ensures n <= |s|
    ensures forall i :: 0 <= i < n ==> IsDigit(s[i], radix)
    ensures n < |s| ==> !IsDigit(s[n], radix)
  {
    if s != [] && IsDigit(s[0], radix) then 1 + DigitRun(s[1..], radix) else 0
  }

  /** The value of a string of digits, most significant first. */
  function DigitsValue(s: string, radix: nat): nat
    requires radix == 10 || radix == 16
    requires forall i :: 0 <= i < |s| ==> IsDigit(s[i], radix)
  {
    if s == [] then 0 else DigitsValue(s[..|s| - 1], radix) * radix + DigitValue(s[|s| - 1], radix)
  }

  /**
   * The unsigned part of `parseInt`: a `0x`/`0X` prefix switches to base 16,
   * then the longest run of digits is read; no digits at all gives NaN,
   * here `None`.
   */
  function ParseUnsigned(u: string): Option<nat>
  {
    var hex := |u| >= 2 && u[0] == '0' && (u[1] == 'x' || u[1] == 'X');
    var radix := if hex then 16 else 10;
    var digits := if hex then u[2..] else u;
    var n := DigitRun(digits, radix);
    if n == 0 then None else Some(DigitsValue(digits[..n], radix))
  }

  /** A sign, if any, followed by the unsigned part. */
  function ParseSigned(t: string): Option<int>
  {
    if t != [] && (t[0] == '-' || t[0] == '+') then
      match ParseUnsigned(t[1..])
      case None => None
      case Some(v) => Some(if t[0] == '-' then -(v as int) else v)
    else
      match ParseUnsigned(t)
      case None => None
      case Some(v) => Some(v)
  }

  /**
   * `parseInt(s)` with no radix: leading white space is skipped and one sign
   * is taken before the unsigned part. `-0` is represented by 0, which every
   * caller here treats alike. A number is read only when the text after the
   * white space starts with a digit or a sign, and only a minus gives a
   * negative one.
   */
  function ParseInt(s: string): (r: Option<int>)
    ensures r.Some? ==> (var t := TrimStart(s); t != [] && (IsDigit(t[0], 10) || t[0] == '-' || t[0] == '+'))
    ensures r.Some? && r.value < 0 ==> TrimStart(s)[0] == '-'
  {
    ParseSigned(TrimStart(s))
  }

  /** Reading back the decimal string of `n` gives `n`. */
  lemma {:induction false} DigitsValueOfDecimalString(n: nat)
    ensures DigitsValue(DecimalString(n), 10) == n
  {
    if n >= 10 {
      var s := DecimalString(n);
      assert s[..|s| - 1] == DecimalString(n / 10);
      DigitsValueOfDecimalString(n / 10);
    }
  }

  /** Decimal strings of distinct numbers are distinct. */
  lemma DecimalStringInjective(m: nat, n: nat)
    requires DecimalString(m) == DecimalString(n)
    ensures m == n
  {
    DigitsValueOfDecimalString(m);
    DigitsValueOfDecimalString(n);
  }

  lemma {:induction false} DigitRunOfDigitsThenOther(d: string, rest: string, radix: nat)
    requires radix == 10 || radix == 16
    requires forall i :: 0 <= i < |d| ==> IsDigit(d[i], radix)
    requires rest == [] || !IsDigit(rest[0], radix)
    ensures DigitRun(d + rest, radix) == |d|
  {
    if d != [] {
      assert (d + rest)[1..] == d[1..] + rest;
      DigitRunOfDigitsThenOther(d[1..], rest, radix);
    }
  }

  lemma ParseUnsignedOfDecimalString(n: nat, rest: string)
    requires rest == [] || (!IsDigit(rest[0], 10) && rest[0] != 'x' && rest[0] != 'X')
    ensures ParseUnsigned(DecimalString(n) + rest) == Some(n)
  {
    var d := DecimalString(n);
    var s := d + rest;
    assert |s| >= 2 && s[0] == '0' ==> |d| == 1 && s[1] == rest[0];
    DigitRunOfDigitsThenOther(d, rest, 10);
    assert s[..|d|] == d;
    DigitsValueOfDecimalString(n);
  }

  lemma TrimStartOfNonWhiteSpace(s: string)
    requires s == [] || !IsWhiteSpace(s[0])
    ensures TrimStart(s) == s
  {
  }

  lemma ParseSignedOfUnsigned(t: string)
    requires t == [] || (t[0] != '-' && t[0] != '+')
    ensures ParseSigned(t) == ParseUnsigned(t)
  {
  }

  lemma ParseUnsignedOfNonDigit(u: string)
    requires u == [] || !IsDigit(u[0], 10)
    ensures ParseUnsigned(u) == None
  {
    assert DigitRun(u, 10) == 0;
  }

  /** Text that starts with a digit is read by the unsigned part alone. */
  lemma ParseIntOfUnsigned(s: string, v: nat)
    requires s != [] && IsDigit(s[0], 10) && ParseUnsigned(s) == Some(v)
    ensures ParseInt(s) == Some(v)
  {
    TrimStartOfNonWhiteSpace(s);
    ParseSignedOfUnsigned(s);
  }

  /** Text that starts with a minus sign gives the negated unsigned part. */
  lemma ParseIntOfMinus(s: string, v: nat)
    requires s != [] && s[0] == '-' && ParseUnsigned(s[1..]) == Some(v)
    ensures ParseInt(s) == Some(-(v as int))
  {
    TrimStartOfNonWhiteSpace(s);
  }

  /**
   * `parseInt` reads back the decimal string of `n`, also when other text
   * that cannot continue the number follows it (`"3.5"` gives 3).
   */
  lemma ParseIntOfDecimalString(n: nat, rest: string)
    requires rest == [] || (!IsDigit(rest[0], 10) && rest[0] != 'x' && rest[0] != 'X')
    ensures ParseInt(DecimalString(n) + rest) == Some(n)
  {
    var d := DecimalString(n);
    var s := d + rest;
    assert s[0] == d[0];
    ParseUnsignedOfDecimalString(n, rest);
    ParseIntOfUnsigned(s, n);
  }

  /** `parseInt(String(n)) === n` for every safe non-negative integer. */
  lemma ParseIntRoundTrip(n: nat)
    ensures ParseInt(DecimalString(n)) == Some(n)
  {
    assert DecimalString(n) + "" == DecimalString(n);
    ParseIntOfDecimalString(n, "");
  }

  /** A leading minus sign negates what follows. */
  lemma ParseIntOfNegativeDecimalString(n: nat)
    ensures ParseInt("-" + DecimalString(n)) == Some(-(n as int))
  {
    var d := DecimalString(n);
    var s := "-" + d;
    assert s[1..] == d + "";
    ParseUnsignedOfDecimalString(n, "");
    ParseIntOfMinus(s, n);
  }

  lemma {:induction false} TrimStartSkipsWhiteSpace(w: string, s: string)
    requires forall i :: 0 <= i < |w| ==> IsWhiteSpace(w[i])
    ensures TrimStart(w + s) == TrimStart(s)
  {
    if w != [] {
      var ws := w + s;
      assert IsWhiteSpace(w[0]) && ws[0] == w[0];
      assert ws != [] && IsWhiteSpace(ws[0]);
      assert TrimStart(ws) == TrimStart(ws[1..]);
      assert ws[1..] == w[1..] + s;
      TrimStartSkipsWhiteSpace(w[1..], s);
    } else {
      assert w + s == s;
    }
  }

  /** Leading white space does not change what `parseInt` reads. */
  lemma ParseIntSkipsWhiteSpace(w: string, s: string)
    requires forall i :: 0 <= i < |w| ==> IsWhiteSpace(w[i])
    ensures ParseInt(w + s) == ParseInt(s)
  {
    TrimStartSkipsWhiteSpace(w, s);
  }

  /** Text that starts with no digit, sign or white space is not a number. */
  lemma ParseIntOfNonNumeric(s: string)
    requires s == [] || (!IsDigit(s[0], 10) && !IsWhiteSpace(s[0]) && s[0] != '-' && s[0] != '+')
    ensures ParseInt(s) == None
  {
    TrimStartOfNonWhiteSpace(s);
    ParseSignedOfUnsigned(s);
    ParseUnsignedOfNonDigit(s);
  }

  /**
   * `String.prototype.toUpperCase` on one character, for the Basic Latin,
   * Latin-1 Supplement and Latin Extended-A blocks (which hold every Czech
   * letter); characters whose upper case is longer than one character
   * (`ß`, `ŉ`) and all other blocks are left as they are.
   */
  function ToUpperChar(c: char): (u: char)
    ensures 'a' <= c <= 'z' ==> 'A' <= u <= 'Z' && u as int + 32 == c as int
    ensures c as int < 128 && !('a' <= c <= 'z') ==> u == c
    ensures !('a' <= u <= 'z')
  {
    var k := c as int;
    if 'a' <= c <= 'z' then (k - 32) as char
    else if k == 0xB5 then 0x39C as char
    else if 0xE0 <= k <= 0xFE && k != 0xF7 then (k - 32) as char
    else if k == 0xFF then 0x178 as char
    else if k == 0x131 then 'I'
    else if (0x100 <= k <= 0x137 || 0x14A <= k <= 0x177) && k % 2 == 1 then (k - 1) as char
    else if (0x139 <= k <= 0x148 || 0x179 <= k <= 0x17E) && k % 2 == 0 then (k - 1) as char
    else if k == 0x17F then 'S'
    else c
  }

  /** Upper-casing is idempotent. */
  lemma ToUpperCharIdempotent(c: char)
    ensures ToUpperChar(ToUpperChar(c)) == ToUpperChar(c)
  {
  }
}
