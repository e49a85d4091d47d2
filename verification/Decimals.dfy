/** Decimal numerals: Python's `str(n)` and, on strings of ASCII digits, `int(s)`. */
module Decimals {

  predicate IsDigit(c: char) {
    '0' <= c <= '9'
  }

  /** One or more ASCII digits. */
  predicate IsDigits(s: string) {
    s != "" && forall i :: 0 <= i < |s| ==> IsDigit(s[i])
  }

  function Digit(d: nat): char
    requires d < 10
  {
    '0' + d as char
  }

  function Value(s: string): nat
    requires forall i :: 0 <= i < |s| ==> IsDigit(s[i])
  {
    if s == "" then 0
    else
      assert IsDigit(s[|s| - 1]);
      10 * Value(s[..|s| - 1]) + (s[|s| - 1] - '0') as nat
  }

  function Numeral(n: nat): (s: string)
    ensures IsDigits(s)
  {
    if n < 10 then [Digit(n)] else Numeral(n / 10) + [Digit(n % 10)]
  }

  /** Reading a numeral back gives the number. */
  lemma {:induction false} ValueOfNumeral(n: nat)
    ensures Value(Numeral(n)) == n
  {
    if n < 10 {
      assert Numeral(n)[..0] == "";
    } else {
      ValueOfNumeral(n / 10);
      assert Numeral(n)[..|Numeral(n)| - 1] == Numeral(n / 10);
    }
  }

  lemma NumeralInjective(m: nat, n: nat)
    requires Numeral(m) == Numeral(n)
    ensures m == n
  {
    ValueOfNumeral(m);
    ValueOfNumeral(n);
  }
}
