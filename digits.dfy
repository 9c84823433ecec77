/**
 * Decimal text as the timer's input fields use it: the digits-only pattern
 * that guards every edit, the numeric value JavaScript's unary `+` gives a
 * digit string, `toString` on a non-negative integer, and the `padStart`
 * that formats each field for display.
 */
module Digits {

  /** A character of the class [0-9]. */
  predicate IsDigit(c: char) {
    '0' <= c <= '9'
  }

  /** Every character is a decimal digit (the empty string included). */
  predicate AllDigits(s: string) {
    forall i :: 0 <= i < |s| ==> IsDigit(s[i])
  }

  /** The input pattern /^[0-9]+$/: a non-empty run of decimal digits and nothing else. */
  predicate IsDigitString(s: string)
  {
    |s| > 0 && AllDigits(s)
  }

  /** The pattern's class [0-9] is exactly the ten characters '0' to '9'. */
  lemma PatternCharacterClass(s: string)
    ensures IsDigitString(s) <==> |s| > 0 && forall i :: 0 <= i < |s| ==> s[i] in "0123456789"
  {
  }

  /** Ten to the power k. */
  function Pow10(k: nat): (p: nat)
    ensures p >= 1
  {
    if k == 0 then 1 else 10 * Pow10(k - 1)
  }

  function DigitValue(c: char): (d: nat)
    requires IsDigit(c)
    ensures d < 10
  {
    (c as int) - ('0' as int)
  }

  /** The digit character for a value below ten; inverse of DigitValue. */
  function DigitChar(d: nat): (c: char)
    requires d < 10
    ensures IsDigit(c) && DigitValue(c) == d
  {
    (('0' as int) + d) as char
  }

  /**
   * The number a digit string denotes, read most significant digit first,
   * as the unary `+` reads it. Leading zeros add nothing (see
   * LeadingZerosIgnored); the empty string, which the pattern never lets
   * through, is 0 here only so that the recursion has a base.
   */
  function NumericValue(s: string): (n: nat)
    requires AllDigits(s)
    ensures n < Pow10(|s|)
    decreases |s|
  {
    if s == [] then 0 else NumericValue(s[..|s| - 1]) * 10 + DigitValue(s[|s| - 1])
  }

  /** `n.toString()` for a non-negative integer: its shortest decimal form. */
  function ToDecimal(n: nat): (r: string)
    ensures IsDigitString(r)
    ensures NumericValue(r) == n
    ensures |r| == 1 <==> n < 10
    ensures |r| > 1 ==> r[0] != '0'
    decreases n
  {
    if n < 10 then
      [DigitChar(n)]
    else
      var front := ToDecimal(n / 10);
      var r := front + [DigitChar(n % 10)];
      assert r[..|r| - 1] == front;
      r
  }

  /**
   * `t.padStart(width, fill)` with a one-character fill: `fill` is put in
   * front of `t` until the result is `width` long; a `t` that is already
   * long enough comes back as it is.
   */
  function PadStart(t: string, width: nat, fill: char): (r: string)
    ensures |r| == if |t| < width then width else |t|
    ensures r[|r| - |t|..] == t
    ensures forall i :: 0 <= i < |r| - |t| ==> r[i] == fill
  {
    if |t| >= width then
      t
    else
      var padding := seq(width - |t|, _ => fill);
      assert (padding + t)[|padding|..] == t;
      padding + t
  }

  /** The text a field shows: `n.toString().padStart(2, '0')`. */
  function Display(n: nat): (r: string)
    ensures IsDigitString(r)
    ensures NumericValue(r) == n
    ensures |r| >= 2
    ensures n < 100 <==> |r| == 2
    ensures |r| > 2 ==> r[0] != '0'
  {
    var t := ToDecimal(n);
    var r := PadStart(t, 2, '0');
    assert r == r[..|r| - |t|] + t;
    LeadingZerosIgnored(r[..|r| - |t|], t);
    r
  }

  /**
   * Read from the front, the first digit is worth its value times ten to
   * the number of digits after it, and the rest is read on its own.
   */
  lemma {:induction false} NumericValueFromFront(s: string)
    requires IsDigitString(s)
    ensures NumericValue(s) == DigitValue(s[0]) * Pow10(|s| - 1) + NumericValue(s[1..])
    decreases |s|
  {
    if |s| > 1 {
      var front, rest := s[..|s| - 1], s[1..];
      var d, last := DigitValue(s[0]), DigitValue(s[|s| - 1]);
      NumericValueFromFront(front);
      assert front[0] == s[0] && rest[|rest| - 1] == s[|s| - 1];
      assert front[1..] == rest[..|rest| - 1];
      var middle := NumericValue(front[1..]);
      assert NumericValue(front) == d * Pow10(|s| - 2) + middle;
      assert NumericValue(rest) == middle * 10 + last;
      calc {
        NumericValue(s);
        NumericValue(front) * 10 + last;
        (d * Pow10(|s| - 2) + middle) * 10 + last;
        { ShiftByTen(d, Pow10(|s| - 2)); }
        d * Pow10(|s| - 1) + NumericValue(rest);
      }
    }
  }

  /** One more factor of ten may be taken in either order. */
  lemma ShiftByTen(d: nat, p: nat)
    ensures d * p * 10 == d * (10 * p)
  {
  }

  /** A string of zeros only denotes 0. */
  lemma {:induction false} ZerosValue(z: string)
    requires forall i :: 0 <= i < |z| ==> z[i] == '0'
    ensures AllDigits(z) && NumericValue(z) == 0
    decreases |z|
  {
    if z != [] {
      ZerosValue(z[..|z| - 1]);
    }
  }

  /** Zeros in front of a digit string do not change its value: "007" denotes 7. */
  lemma {:induction false} LeadingZerosIgnored(z: string, t: string)
    requires forall i :: 0 <= i < |z| ==> z[i] == '0'
    requires AllDigits(t)
    ensures AllDigits(z + t)
    ensures NumericValue(z + t) == NumericValue(t)
    decreases |t|
  {
    if t == [] {
      assert z + t == z;
      ZerosValue(z);
    } else {
      var front := t[..|t| - 1];
      LeadingZerosIgnored(z, front);
      assert (z + t)[..|z + t| - 1] == z + front;
    }
  }

  /**
   * A digit string without superfluous leading zeros is the decimal form of
   * its own value: toString undoes the unary `+` on such strings.
   */
  lemma {:induction false} ToDecimalOfCanonical(s: string)
    requires IsDigitString(s)
    requires |s| > 1 ==> s[0] != '0'
    ensures ToDecimal(NumericValue(s)) == s
    decreases |s|
  {
    if |s| > 1 {
      var front := s[..|s| - 1];
      ToDecimalOfCanonical(front);
      assert ToDecimal(0) == ['0'] && front[0] != '0';
      assert NumericValue(front) != 0;
      var n := NumericValue(s);
      assert n / 10 == NumericValue(front) && n % 10 == DigitValue(s[|s| - 1]);
      assert s == front + [s[|s| - 1]];
    }
  }
}
