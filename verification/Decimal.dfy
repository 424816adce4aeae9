/** Decimal numerals as Python prints and reads them. */
module Decimal {

  predicate IsDigit(c: char) {
    '0' <= c <= '9'
  }

  predicate AllDigits(s: string) {
    forall i :: 0 <= i < |s| ==> IsDigit(s[i])
  }

  function Digit(n: nat): char
    requires n < 10
  {
    '0' + n as char
  }

  function DigitValue(c: char): nat
    requires IsDigit(c)
  {
    (c - '0') as nat
  }

  function ToDecimal(n: nat): string {
    if n < 10 then [Digit(n)] else ToDecimal(n / 10) + [Digit(n % 10)]
  }

  function FromDecimal(s: string): nat
    requires AllDigits(s)
  {
    if s == [] then 0 else 10 * FromDecimal(s[..|s| - 1]) + DigitValue(s[|s| - 1])
  }

  function Pow10(k: nat): nat {
    if k == 0 then 1 else 10 * Pow10(k - 1)
  }

  /** A printed number reads back as itself and has no leading zero. */
  lemma {:induction false} DecimalRoundTrip(n: nat)
    ensures var s := ToDecimal(n);
            && |s| >= 1 && AllDigits(s) && FromDecimal(s) == n
            && (s[0] == '0' <==> n == 0) && (n == 0 ==> s == "0")
  {
    if n < 10 {
      assert ToDecimal(n)[..0] == [];
    } else {
      DecimalRoundTrip(n / 10);
      var front, s := ToDecimal(n / 10), ToDecimal(n);
      assert s[..|s| - 1] == front;
    }
  }

  lemma DecimalInjective(m: nat, n: nat)
    requires ToDecimal(m) == ToDecimal(n)
    ensures m == n
  {
    DecimalRoundTrip(m);
    DecimalRoundTrip(n);
  }

  lemma {:induction false} DigitCount(n: nat, k: nat)
    requires 1 <= k
    ensures |ToDecimal(n)| <= k <==> n < Pow10(k)
  {
    if k == 1 {
      assert Pow10(1) == 10 * Pow10(0);
      if n >= 10 {
        DecimalRoundTrip(n / 10);
      }
    } else if n < 10 {
      PowerAtLeastTen(k);
    } else {
      DigitCount(n / 10, k - 1);
      assert n / 10 < Pow10(k - 1) <==> n < 10 * Pow10(k - 1);
    }
  }

  lemma {:induction false} PowerAtLeastTen(k: nat)
    requires 1 <= k
    ensures 10 <= Pow10(k)
  {
    if k > 1 {
      PowerAtLeastTen(k - 1);
    } else {
      assert Pow10(k) == 10 * Pow10(0);
    }
  }

  lemma {:induction false} PowersGrow(j: nat, k: nat)
    requires j <= k
    ensures Pow10(j) <= Pow10(k)
  {
    if j < k {
      PowersGrow(j, k - 1);
    }
  }
}
