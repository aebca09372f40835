/**
 * Base-16 text as a std::stringstream read with std::hex accepts it: an
 * optional "0x" or "0X" prefix followed by hexadecimal digits.  Overflow of
 * the destination and malformed text are outside this module: callers only
 * convert text for which IsHexText holds and whose value fits.
 */
module Hex {

  predicate IsHexDigit(c: char) {
    ('0' <= c <= '9') || ('a' <= c <= 'f') || ('A' <= c <= 'F')
  }

  function DigitValue(c: char): (v: nat)
    requires IsHexDigit(c)
    ensures v < 16
  {
    if '0' <= c <= '9' then c as int - '0' as int
    else if 'a' <= c <= 'f' then c as int - 'a' as int + 10
    else c as int - 'A' as int + 10
  }

  /** The lower-case digit for a value below 16: the inverse of DigitValue. */
  function HexChar(v: nat): (c: char)
    requires v < 16
    ensures IsHexDigit(c) && DigitValue(c) == v
  {
    if v < 10 then ('0' as int + v) as char else ('a' as int + v - 10) as char
  }

  predicate AllHexDigits(d: string) {
    forall i :: 0 <= i < |d| ==> IsHexDigit(d[i])
  }

  /** The text after the optional base prefix, which std::hex extraction skips. */
  function Digits(s: string): (d: string)
    ensures |d| <= |s|
  {
    if |s| >= 2 && s[0] == '0' && (s[1] == 'x' || s[1] == 'X') then s[2..] else s
  }

  predicate IsHexText(s: string) {
    |Digits(s)| > 0 && AllHexDigits(Digits(s))
  }

  function Pow16(n: nat): (p: nat)
    ensures p >= 1
  {
    if n == 0 then 1 else 16 * Pow16(n - 1)
  }

  /** The value of a digit string, most significant digit first. */
  function DigitsValue(d: string): nat
    requires AllHexDigits(d)
  {
    if d == [] then 0 else DigitsValue(d[..|d| - 1]) * 16 + DigitValue(d[|d| - 1])
  }

  /** The number that std::hex extraction reads from the text. */
  function HexValue(s: string): nat
    requires IsHexText(s)
  {
    DigitsValue(Digits(s))
  }

  /** n digits hold a value below 16^n. */
  lemma {:induction false} DigitsValueBound(d: string)
    requires AllHexDigits(d)
    ensures DigitsValue(d) < Pow16(|d|)
  {
    if d != [] {
      DigitsValueBound(d[..|d| - 1]);
    }
  }

  /** Text with at most four digits after the prefix fits a uint16_t. */
  lemma ShortTextFitsU16(s: string)
    requires IsHexText(s) && |Digits(s)| <= 4
    ensures HexValue(s) < 0x1_0000
  {
    DigitsValueBound(Digits(s));
    Pow16Monotone(|Digits(s)|, 4);
  }

  lemma {:induction false} Pow16Monotone(m: nat, n: nat)
    requires m <= n
    ensures Pow16(m) <= Pow16(n)
  {
    if m < n {
      Pow16Monotone(m, n - 1);
    }
  }

  /** The shortest digit string of n, most significant digit first. */
  function DigitsOf(n: nat): (d: string)
    ensures |d| > 0 && AllHexDigits(d)
  {
    if n < 16 then [HexChar(n)] else DigitsOf(n / 16) + [HexChar(n % 16)]
  }

  /** n written as "0x" followed by its digits. */
  function ToHex(n: nat): (s: string)
    ensures IsHexText(s)
  {
    var d := DigitsOf(n);
    assert Digits("0x" + d) == d;
    "0x" + d
  }

  lemma {:induction false} DigitsRoundTrip(n: nat)
    ensures DigitsValue(DigitsOf(n)) == n
  {
    var d := DigitsOf(n);
    if n >= 16 {
      assert d[..|d| - 1] == DigitsOf(n / 16);
      DigitsRoundTrip(n / 16);
    } else {
      assert d[..|d| - 1] == [];
    }
  }

  /** Reading back what ToHex writes gives the number again. */
  lemma HexRoundTrip(n: nat)
    ensures HexValue(ToHex(n)) == n
  {
    assert Digits(ToHex(n)) == DigitsOf(n);
    DigitsRoundTrip(n);
  }
}
