/** Decimal notation of natural numbers. */
module Decimals {

  predicate IsDigit(c: char) { '0' <= c <= '9' }

  predicate AllDigits(s: string) {
    forall i | 0 <= i < |s| :: IsDigit(s[i])
  }

  function DigitValue(c: char): int { c as int - '0' as int }

  /** The number that a string of digits denotes; leading zeros are allowed. */
  function Value(s: string): (n: int)
    ensures AllDigits(s) ==> n >= 0
  {
    if s == [] then 0 else Value(s[..|s| - 1]) * 10 + DigitValue(s[|s| - 1])
  }

  function Digit(n: nat): char
    requires n < 10
  {
    '0' + n as char
  }

  /** How a number is printed. */
  function Decimal(n: nat): (s: string)
    ensures |s| > 0 && AllDigits(s)
  {
    if n < 10 then [Digit(n)] else Decimal(n / 10) + [Digit(n % 10)]
  }

  lemma {:induction false} ValueOfDecimal(n: nat)
    ensures Value(Decimal(n)) == n
  {
    if n < 10 {
      assert Decimal(n)[..0] == [];
    } else {
      ValueOfDecimal(n / 10);
      var s := Decimal(n);
      assert s[..|s| - 1] == Decimal(n / 10);
    }
  }

  /** The digits by their codes, and no leading zero. */
  lemma {:induction false} DecimalIsUsual(n: nat)
    ensures n < 10 ==> |Decimal(n)| == 1
    ensures n >= 10 ==> |Decimal(n)| > 1 && Decimal(n)[..|Decimal(n)| - 1] == Decimal(n / 10)
    ensures Decimal(n)[|Decimal(n)| - 1] as int == 48 + n % 10
    ensures n > 0 ==> Decimal(n)[0] as int > 48
    decreases n
  {
    if n >= 10 {
      DecimalIsUsual(n / 10);
      assert Decimal(n) == Decimal(n / 10) + [Digit(n % 10)];
    }
  }

  lemma DecimalInjective(m: nat, n: nat)
    requires Decimal(m) == Decimal(n)
    ensures m == n
  {
    ValueOfDecimal(m);
    ValueOfDecimal(n);
  }
}
