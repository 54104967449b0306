/**
 * The string operations the calculators rely on: decimal rendering of
 * integers (Number.prototype.toString), `padStart(2, '0')`, `toFixed(2)` on an
 * exact value, parseInt on a string of digits, ASCII lower-casing and
 * substring search (`includes`).
 */
module Text {
  import JsNumber

  predicate IsDigit(c: char) {
    '0' <= c <= '9'
  }

  predicate AllDigits(s: string) {
    forall i :: 0 <= i < |s| ==> IsDigit(s[i])
  }

  function DigitChar(d: nat): (c: char)
    requires d < 10
    ensures IsDigit(c)
  {
    ('0' as int + d) as char
  }

  function DigitValue(c: char): (d: nat)
    requires IsDigit(c)
    ensures d < 10 && DigitChar(d) == c
  {
    c as int - '0' as int
  }

  /** Decimal digits of `n`, most significant first, without leading zeros. */
  function NatToString(n: nat): (s: string)
    ensures 1 <= |s| && AllDigits(s)
    ensures |s| > 1 ==> s[0] != '0'
    ensures n < 10 <==> |s| == 1
    ensures n < 100 <==> |s| <= 2
  {
    if n < 10 then [DigitChar(n)]
    else NatToString(n / 10) + [DigitChar(n % 10)]
  }

  /** `n.toString()` for a whole number: a minus sign, then the digits of its magnitude. */
  function IntToString(n: int): (s: string)
    ensures n >= 0 ==> s == NatToString(n)
    ensures n < 0 ==> |s| >= 2 && s[0] == '-' && AllDigits(s[1..])
  {
    if n < 0 then "-" + NatToString(-n) else NatToString(n)
  }

  /** The value of a string of decimal digits; leading zeros are allowed. */
  function DigitsValue(s: string): nat
    requires AllDigits(s)
  {
    if |s| == 0 then 0
    else 10 * DigitsValue(s[..|s| - 1]) + DigitValue(s[|s| - 1])
  }

  /** parseInt restricted to unsigned digit strings; anything else is not a number. */
  function ParseDigits(s: string): (r: JsNumber.Num)
    ensures r.Finite? <==> 1 <= |s| && AllDigits(s)
  {
    if 1 <= |s| && AllDigits(s) then JsNumber.Finite(DigitsValue(s) as real) else JsNumber.NaN
  }

  /** Reading back the rendering of a natural number gives the number. */
  lemma {:induction false} NatToStringRoundTrip(n: nat)
    ensures DigitsValue(NatToString(n)) == n
    decreases n
  {
    if n >= 10 {
      var s := NatToString(n);
      assert s[..|s| - 1] == NatToString(n / 10);
      NatToStringRoundTrip(n / 10);
    }
  }

  /** A leading zero does not change the value of a digit string. */
  lemma {:induction false} LeadingZero(s: string)
    requires AllDigits(s)
    ensures AllDigits("0" + s) && DigitsValue("0" + s) == DigitsValue(s)
    decreases |s|
  {
    if |s| > 0 {
      var t := "0" + s;
      assert t[..|t| - 1] == "0" + s[..|s| - 1];
      LeadingZero(s[..|s| - 1]);
    }
  }

  /** `s.padStart(2, '0')`. */
  function PadStart2(s: string): (r: string)
    ensures |s| >= 2 ==> r == s
    ensures |s| < 2 ==> |r| == 2 && r[2 - |s|..] == s
    ensures forall i :: 0 <= i < 2 - |s| ==> r[i] == '0'
  {
    if |s| >= 2 then s
    else if |s| == 1 then "0" + s
    else "00"
  }

  /** A number below 100, rendered and padded, is two digits that read back as the number. */
  lemma PaddedRoundTrip(n: nat)
    requires n < 100
    ensures var p := PadStart2(NatToString(n));
      |p| == 2 && AllDigits(p) && DigitsValue(p) == n
  {
    NatToStringRoundTrip(n);
    if n < 10 {
      LeadingZero(NatToString(n));
    }
  }

  /** toFixed(2) as whole hundredths: the nearest count of hundredths, halves rounded up. */
  function Hundredths(x: real): (h: int)
    ensures x * 100.0 - 0.5 < h as real <= x * 100.0 + 0.5
    ensures x >= 0.0 ==> h >= 0
  {
    JsNumber.Round(x * 100.0)
  }

  /** Integer part without leading zeros, a point and two decimals that read back as the hundredths of `x`. */
  predicate ShowsHundredths(s: string, x: real) {
    && |s| >= 4 && s[|s| - 3] == '.'
    && AllDigits(s[..|s| - 3]) && AllDigits(s[|s| - 2..])
    && (|s| > 4 ==> s[0] != '0')
    && 100 * DigitsValue(s[..|s| - 3]) + DigitsValue(s[|s| - 2..]) == Hundredths(x)
  }

  function UnsignedFixed2(x: real): (s: string)
    requires x >= 0.0
    ensures ShowsHundredths(s, x)
  {
    var h := Hundredths(x);
    var whole := NatToString(h / 100);
    var cents := PadStart2(NatToString(h % 100));
    NatToStringRoundTrip(h / 100);
    PaddedRoundTrip(h % 100);
    JoinShowsHundredths(whole, cents, x);
    whole + "." + cents
  }

  /** Whole part, a point and two digits of cents show the hundredths they add up to. */
  lemma JoinShowsHundredths(whole: string, cents: string, x: real)
    requires |whole| >= 1 && AllDigits(whole) && |cents| == 2 && AllDigits(cents)
    requires |whole| > 1 ==> whole[0] != '0'
    requires 100 * DigitsValue(whole) + DigitsValue(cents) == Hundredths(x)
    ensures ShowsHundredths(whole + "." + cents, x)
  {
    var s := whole + "." + cents;
    assert s[..|s| - 3] == whole;
    assert s[|s| - 2..] == cents;
  }

  /** `x.toFixed(2)` for an exact value; a negative value is its magnitude behind a minus sign. */
  function Fixed2(x: real): (s: string)
    ensures x >= 0.0 ==> ShowsHundredths(s, x)
    ensures x < 0.0 ==> |s| >= 1 && s[0] == '-' && ShowsHundredths(s[1..], -x)
  {
    if x < 0.0 then "-" + UnsignedFixed2(-x) else UnsignedFixed2(x)
  }

  /** ASCII lower-casing of one character. */
  function LowerChar(c: char): char {
    if 'A' <= c <= 'Z' then (c as int + 32) as char else c
  }

  /** `s.toLowerCase()` on the ASCII letters. */
  function ToLower(s: string): (r: string)
    ensures |r| == |s|
    ensures forall i :: 0 <= i < |s| ==> r[i] == LowerChar(s[i])
  {
    seq(|s|, i requires 0 <= i < |s| => LowerChar(s[i]))
  }

  /** Lower-casing twice is lower-casing once. */
  lemma ToLowerIdempotent(s: string)
    ensures ToLower(ToLower(s)) == ToLower(s)
  {
  }

  predicate OccursAt(s: string, sub: string, i: int) {
    0 <= i && i + |sub| <= |s| && s[i..i + |sub|] == sub
  }

  /** `s.includes(sub)`. */
  predicate Contains(s: string, sub: string) {
    exists i | 0 <= i <= |s| - |sub| :: OccursAt(s, sub, i)
  }
}
