/**
 * Text helpers shared by the simulator and its command line: the decimal
 * rendering of a natural number (JavaScript's `String(n)` for a non-negative
 * integer), decimal parsing, and the UTF-16 code units of a string (what
 * `charCodeAt` walks).
 */
module Text {

  predicate IsDigit(c: char)
  {
    '0' <= c <= '9'
  }

  predicate AllDigits(s: string)
  {
    forall i :: 0 <= i < |s| ==> IsDigit(s[i])
  }

  function DigitChar(d: nat): (c: char)
    requires d < 10
    ensures IsDigit(c) && (c as int) - ('0' as int) == d
  {
    ((('0' as int) + d) as char)
  }

  /** Shortest decimal digits of `n`. */
  function NatToString(n: nat): (s: string)
    ensures |s| >= 1 && AllDigits(s)
    ensures |s| > 1 ==> s[0] != '0'
    decreases n
  {
    if n < 10 then [DigitChar(n)] else NatToString(n / 10) + [DigitChar(n % 10)]
  }

  /** The value of a string of decimal digits, read left to right; empty reads as 0. */
  function DigitsValue(s: string): nat
    requires AllDigits(s)
    decreases |s|
  {
    if s == [] then 0
    else DigitsValue(s[..|s| - 1]) * 10 + ((s[|s| - 1] as int) - ('0' as int))
  }

  /** Reading back the rendering of `n` gives `n`. */
  lemma {:induction false} NatToStringRoundTrip(n: nat)
    ensures DigitsValue(NatToString(n)) == n
    decreases n
  {
    if n >= 10 {
      NatToStringRoundTrip(n / 10);
      var s := NatToString(n);
      assert s[..|s| - 1] == NatToString(n / 10);
    }
  }

  /** Distinct numbers render differently. */
  lemma NatToStringInjective(m: nat, n: nat)
    requires NatToString(m) == NatToString(n)
    ensures m == n
  {
    NatToStringRoundTrip(m);
    NatToStringRoundTrip(n);
  }

  /** The UTF-16 code units of one character: one unit below 0x10000, else a surrogate pair. */
  function CharUnits(c: char): (u: seq<bv16>)
    ensures 1 <= |u| <= 2
    ensures (c as int) < 0x1_0000 ==> u == [(c as int) as bv16]
  {
    var v := c as int;
    if v < 0x1_0000 then [v as bv16]
    else
      var w := v - 0x1_0000;
      [(0xD800 + w / 0x400) as bv16, (0xDC00 + w % 0x400) as bv16]
  }

  /** The UTF-16 code units of a string. */
  function Utf16(s: string): (u: seq<bv16>)
    ensures |u| >= |s|
    decreases |s|
  {
    if s == [] then [] else CharUnits(s[0]) + Utf16(s[1..])
  }
}
