/**
 * JavaScript's decimal conversions of integers, as the session codec and the cache keys use them:
 * the template literal `${n}` (number to string) and `parseInt(s, 10)` (string to number).
 * Numbers are unbounded integers here; `NaN` is `None`.
 */
module Decimal {
  import opened Common

  predicate IsDigit(c: char) {
    '0' <= c <= '9'
  }

  predicate AllDigits(s: string) {
    forall i :: 0 <= i < |s| ==> IsDigit(s[i])
  }

  function DigitValue(c: char): (d: int)
    requires IsDigit(c)
    ensures 0 <= d < 10
  {
    c as int - '0' as int
  }

  function DigitChar(d: int): (c: char)
    requires 0 <= d < 10
    ensures IsDigit(c) && DigitValue(c) == d
  {
    ('0' as int + d) as char
  }

  /** `${n}` for a non-negative integer: its digits, most significant first, no leading zero. */
  function NatToDecimal(n: nat): (s: string)
    ensures 1 <= |s| && AllDigits(s)
    decreases n
  {
    if n < 10 then [DigitChar(n)] else NatToDecimal(n / 10) + [DigitChar(n % 10)]
  }

  /** `${n}` for an integer. */
  function IntToDecimal(n: int): (s: string)
    ensures 1 <= |s|
    ensures n >= 0 ==> AllDigits(s)
    ensures n < 0 ==> s[0] == '-' && AllDigits(s[1..])
  {
    if n < 0 then "-" + NatToDecimal(-n) else NatToDecimal(n)
  }

  /** The number a string of decimal digits denotes. */
  function DigitsValue(s: string): nat
    requires AllDigits(s)
    decreases |s|
  {
    if s == [] then 0 else 10 * DigitsValue(s[..|s| - 1]) + DigitValue(s[|s| - 1])
  }

  /** Reading back the digits `${n}` printed gives `n`. */
  lemma {:induction false} DigitsValueOfDecimal(n: nat)
    ensures DigitsValue(NatToDecimal(n)) == n
    decreases n
  {
    if n >= 10 {
      var s := NatToDecimal(n);
      assert s[..|s| - 1] == NatToDecimal(n / 10);
      DigitsValueOfDecimal(n / 10);
    }
  }

  /** Distinct integers print differently, so a printed id identifies the id. */
  lemma IntToDecimalInjective(a: int, b: int)
    ensures IntToDecimal(a) == IntToDecimal(b) ==> a == b
  {
    if IntToDecimal(a) == IntToDecimal(b) {
      if a < 0 {
        NegativeDecimalsInjective(a, b);
      } else {
        NonNegativeDecimalsInjective(a, b);
      }
    }
  }

  lemma NegativeDecimalsInjective(a: int, b: int)
    requires a < 0 && IntToDecimal(a) == IntToDecimal(b)
    ensures a == b
  {
    var s := IntToDecimal(b);
    assert s[0] == '-' && !IsDigit(s[0]);
    assert b < 0;
    assert NatToDecimal(-a) == s[1..] == NatToDecimal(-b);
    DigitsValueOfDecimal(-a);
    DigitsValueOfDecimal(-b);
  }

  lemma NonNegativeDecimalsInjective(a: int, b: int)
    requires a >= 0 && IntToDecimal(a) == IntToDecimal(b)
    ensures a == b
  {
    var s := IntToDecimal(a);
    assert IsDigit(s[0]) && s[0] != '-';
    assert b >= 0;
    assert NatToDecimal(a) == NatToDecimal(b);
    DigitsValueOfDecimal(a);
    DigitsValueOfDecimal(b);
  }

  /** ECMAScript's StrWhiteSpaceChar: white space and line terminators, which `parseInt` skips first. */
  predicate IsJsWhitespace(c: char) {
    || c == '\t' || c == '\n' || c == '\U{000B}' || c == '\U{000C}' || c == '\r' || c == ' '
    || c == '\U{00A0}' || c == '\U{1680}' || ('\U{2000}' <= c <= '\U{200A}')
    || c == '\U{2028}' || c == '\U{2029}' || c == '\U{202F}' || c == '\U{205F}'
    || c == '\U{3000}' || c == '\U{FEFF}'
  }

  /** `s` without its leading white space. */
  function TrimStart(s: string): (t: string)
    ensures t == [] || !IsJsWhitespace(t[0])
    ensures |t| <= |s| && t == s[|s| - |t|..]
    decreases |s|
  {
    if s != [] && IsJsWhitespace(s[0]) then TrimStart(s[1..]) else s
  }

  /** The longest prefix of `s` made of decimal digits. */
  function DigitPrefix(s: string): (d: string)
    ensures AllDigits(d) && d <= s
    ensures |d| < |s| ==> !IsDigit(s[|d|])
    decreases |s|
  {
    if s != [] && IsDigit(s[0]) then [s[0]] + DigitPrefix(s[1..]) else []
  }

  /** The digits at the front of `u`, read as a number; `NaN` (None) when `u` does not start with a digit. */
  function ParseUnsigned(u: string): Option<nat> {
    var digits := DigitPrefix(u);
    if digits == [] then None else Some(DigitsValue(digits))
  }

  /** One optional sign, then the digits: a minus sign negates, a plus sign is dropped. */
  function ParseSigned(t: string): Option<int> {
    var negative := t != [] && t[0] == '-';
    var m := ParseUnsigned(if t != [] && (t[0] == '-' || t[0] == '+') then t[1..] else t);
    if m.None? then None else if negative then Some(-(m.value as int)) else Some(m.value as int)
  }

  /**
   * `parseInt(s, 10)`: skip leading white space, take one optional sign, then as many decimal
   * digits as there are; `NaN` (None) when there is no digit at all. Whatever follows the digits
   * is ignored, so "12abc" gives 12.
   */
  function ParseInt(s: string): Option<int> {
    ParseSigned(TrimStart(s))
  }

  /** Nothing is trimmed from a string that starts with something other than white space. */
  lemma TrimStartKeeps(s: string)
    requires s != [] && !IsJsWhitespace(s[0])
    ensures TrimStart(s) == s
  {
  }

  lemma {:induction false} DigitPrefixOfDigits(d: string, rest: string)
    requires AllDigits(d)
    requires rest == [] || !IsDigit(rest[0])
    ensures DigitPrefix(d + rest) == d
    decreases |d|
  {
    if d != [] {
      assert (d + rest)[1..] == d[1..] + rest;
      DigitPrefixOfDigits(d[1..], rest);
    } else {
      assert d + rest == rest;
    }
  }

  /** A string that starts with a digit has a non-empty digit prefix. */
  lemma DigitPrefixOfDigitFirst(s: string)
    requires s != [] && IsDigit(s[0])
    ensures DigitPrefix(s) != []
  {
    assert DigitPrefix(s)[0] == s[0];
  }

  /** With no sign in front, the digits are read as they are. */
  lemma SignedOfDigitFirst(s: string)
    requires s != [] && IsDigit(s[0]) && ParseUnsigned(s).Some?
    ensures ParseSigned(s) == Some(ParseUnsigned(s).value as int)
  {
    assert s[0] != '-' && s[0] != '+';
  }

  /** A string that starts with a digit is read, with no sign, from its digit prefix. */
  lemma ParseIntOfDigitFirst(s: string)
    requires s != [] && IsDigit(s[0])
    ensures DigitPrefix(s) != []
    ensures ParseInt(s) == Some(DigitsValue(DigitPrefix(s)) as int)
  {
    assert !IsJsWhitespace(s[0]);
    TrimStartKeeps(s);
    DigitPrefixOfDigitFirst(s);
    SignedOfDigitFirst(s);
  }

  /** A minus sign in front of a digit is taken as the sign. */
  lemma SignedOfMinusDigit(u: string)
    requires u != [] && IsDigit(u[0]) && ParseUnsigned(u).Some?
    ensures ParseSigned("-" + u) == Some(-(ParseUnsigned(u).value as int))
  {
    var s := "-" + u;
    assert s[0] == '-' && s[1..] == u;
  }

  /** `parseInt` is lenient: after the digits, anything that is not a digit is ignored. */
  lemma ParseIntIgnoresSuffix(d: string, rest: string)
    requires d != [] && AllDigits(d)
    requires rest == [] || !IsDigit(rest[0])
    ensures ParseInt(d + rest) == Some(DigitsValue(d))
  {
    var s := d + rest;
    assert s[0] == d[0] && IsDigit(d[0]);
    ParseIntOfDigitFirst(s);
    DigitPrefixOfDigits(d, rest);
  }

  /** A single digit reads as its value; "0", in particular, reads as 0. */
  lemma ParseIntOfDigit(c: char)
    requires IsDigit(c)
    ensures ParseInt([c]) == Some(DigitValue(c))
  {
    var d := [c];
    assert AllDigits(d);
    assert d + [] == d;
    ParseIntIgnoresSuffix(d, []);
    assert d[..0] == [];
  }

  /** A string that starts with neither white space, a sign nor a digit reads as `NaN`. */
  lemma ParseIntOfNonNumeric(s: string)
    requires s != [] && !IsJsWhitespace(s[0]) && !IsDigit(s[0]) && s[0] != '-' && s[0] != '+'
    ensures ParseInt(s) == None
  {
    TrimStartKeeps(s);
    assert DigitPrefix(s) == [];
  }

  /** A string of digits alone reads as the number it denotes. */
  lemma UnsignedOfDigits(d: string)
    requires AllDigits(d)
    ensures d != [] ==> ParseUnsigned(d) == Some(DigitsValue(d))
  {
    assert d + [] == d;
    DigitPrefixOfDigits(d, []);
  }

  /** A leading minus sign negates what the digits denote. */
  lemma ParseIntNegative(d: string, v: nat)
    requires d != [] && AllDigits(d) && DigitsValue(d) == v
    ensures ParseInt("-" + d) == Some(-(v as int))
  {
    var s := "-" + d;
    assert s[0] == '-' && !IsJsWhitespace(s[0]);
    TrimStartKeeps(s);
    assert IsDigit(d[0]);
    UnsignedOfDigits(d);
    SignedOfMinusDigit(d);
  }

  /** `parseInt(`${n}`, 10) === n` for every integer. */
  lemma ParseIntOfDecimal(n: int)
    ensures ParseInt(IntToDecimal(n)) == Some(n)
  {
    if n < 0 {
      ParseIntOfNegativeDecimal(n);
    } else {
      DigitsValueOfDecimal(n);
      ParseIntOfDigits(NatToDecimal(n), n);
    }
  }

  /** A string of digits with nothing after them reads as the number they denote. */
  lemma ParseIntOfDigits(d: string, v: nat)
    requires d != [] && AllDigits(d) && DigitsValue(d) == v
    ensures ParseInt(d) == Some(v)
  {
    assert d + [] == d;
    ParseIntIgnoresSuffix(d, []);
  }

  lemma ParseIntOfNegativeDecimal(n: int)
    requires n < 0
    ensures ParseInt(IntToDecimal(n)) == Some(n)
  {
    DigitsValueOfDecimal(-n);
    ParseIntNegative(NatToDecimal(-n), -n);
  }
}
