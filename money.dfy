/** Money as whole cents. The source computes in JavaScript doubles, rounds
    with `round2` and prints with `toFixed(2)`; here every amount is an exact
    integer number of cents, rounding is to the nearest cent with halves
    going up, and `toFixed(2)` is a digit string. */
module Money {

  predicate IsDigit(c: char) {
    '0' <= c <= '9'
  }

  predicate AllDigits(s: string) {
    forall i :: 0 <= i < |s| ==> IsDigit(s[i])
  }

  function DigitChar(d: nat): (c: char)
    requires d < 10
    ensures IsDigit(c)
  {
    ('0' as int + d) as char
  }

  function DigitValue(c: char): (d: nat)
    requires IsDigit(c)
    ensures d < 10 && DigitChar(d) == c
  {
    c as int - '0' as int
  }

  /** The decimal numeral of `n`, without leading zeros. */
  function NatToDigits(n: nat): (r: string)
    ensures |r| >= 1 && AllDigits(r)
  {
    if n < 10 then [DigitChar(n)] else NatToDigits(n / 10) + [DigitChar(n % 10)]
  }

  /** The value of a decimal numeral (the empty numeral is 0). */
  function DigitsValue(s: string): nat
    requires AllDigits(s)
  {
    if s == [] then 0 else DigitsValue(s[..|s| - 1]) * 10 + DigitValue(s[|s| - 1])
  }

  /** Reading back the numeral of `n` gives `n`. */
  lemma {:induction false} DigitsRoundTrip(n: nat)
    ensures DigitsValue(NatToDigits(n)) == n
  {
    if n >= 10 {
      var s := NatToDigits(n);
      assert s[..|s| - 1] == NatToDigits(n / 10);
      DigitsRoundTrip(n / 10);
    }
  }

  /** `round2` applied to an amount given in hundredths of a cent: the
      nearest whole cent, a half rounding up. `round2` lives in lib/utils,
      which is not part of this model; it is assumed to be
      `Math.round(value * 100) / 100` on exact amounts. */
  function RoundToCent(hundredths: int): (r: int)
    ensures 100 * r - 50 <= hundredths < 100 * r + 50
  {
    (hundredths + 50) / 100
  }

  /** `toFixed(2)` of a non-negative amount of cents: whole units, a point,
      exactly two digits of cents. */
  function UnsignedFixed2(cents: nat): string
  {
    NatToDigits(cents / 100) + "." + [DigitChar(cents / 10 % 10), DigitChar(cents % 10)]
  }

  /** `toFixed(2)` of any amount of cents. */
  function ToFixed2(cents: int): string
  {
    if cents < 0 then "-" + UnsignedFixed2(-cents) else UnsignedFixed2(cents)
  }
}
