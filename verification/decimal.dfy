/**
 * Decimal rendering of non-negative integers, as JavaScript's
 * `Number.prototype.toString()` produces it for a whole number below 2^53
 * (above that, or from 10^21 on, JavaScript rounds or switches to exponent
 * form), and the matching parse. The form renders the years 2013 to 2112
 * with it.
 */
module Decimal {

  predicate IsDigit(c: char) {
    '0' <= c <= '9'
  }

  predicate AllDigits(s: string) {
    forall i :: 0 <= i < |s| ==> IsDigit(s[i])
  }

  function DigitChar(d: nat): (c: char)
    requires d < 10
    ensures IsDigit(c)
  {
    (48 + d) as char
  }

  function DigitValue(c: char): (d: nat)
    requires IsDigit(c)
    ensures d < 10 && DigitChar(d) == c
  {
    (c as int) - 48
  }

  /** The shortest decimal numeral of `n`: at least one digit, no leading zero. */
  function FromNat(n: nat): (s: string)
    ensures 1 <= |s| && AllDigits(s)
    ensures |s| > 1 ==> s[0] != '0'
    ensures (n < 10) == (|s| == 1)
    decreases n
  {
    if n < 10 then [DigitChar(n)] else FromNat(n / 10) + [DigitChar(n % 10)]
  }

  /** The value of a string of decimal digits (most significant first). */
  function ToNat(s: string): nat
    requires AllDigits(s)
  {
    if s == [] then 0 else 10 * ToNat(s[..|s| - 1]) + DigitValue(s[|s| - 1])
  }

  /** Parsing a rendered numeral gives the number back. */
  lemma {:induction false} ToNatFromNat(n: nat)
    ensures ToNat(FromNat(n)) == n
    decreases n
  {
    var s := FromNat(n);
    if n >= 10 {
      var prefix := FromNat(n / 10);
      assert s == prefix + [DigitChar(n % 10)];
      assert s[..|s| - 1] == prefix;
      ToNatFromNat(n / 10);
    }
  }

  /** Distinct numbers have distinct numerals. */
  lemma {:induction false} FromNatInjective(m: nat, n: nat)
    requires m != n
    ensures FromNat(m) != FromNat(n)
  {
    ToNatFromNat(m);
    ToNatFromNat(n);
  }
}
