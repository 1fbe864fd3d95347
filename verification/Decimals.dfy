/** Decimal spellings of natural numbers. */
module Decimals {
  predicate IsDigit(c: char) {
    '0' <= c <= '9'
  }

  function Value(digits: string): nat {
    if digits == "" then 0
    else
      var n := |digits| - 1;
      10 * Value(digits[..n]) + if IsDigit(digits[n]) then (digits[n] - '0') as nat else 0
  }

  function Digit(d: nat): (c: char)
    requires d < 10
    ensures IsDigit(c) && (c - '0') as nat == d
  {
    '0' + d as char
  }

  function Decimal(n: nat): (s: string)
    ensures s != ""
  {
    if n < 10 then [Digit(n)] else Decimal(n / 10) + [Digit(n % 10)]
  }

  predicate AllDigits(s: string) {
    forall i :: 0 <= i < |s| ==> IsDigit(s[i])
  }

  lemma {:induction false} DecimalValue(n: nat)
    ensures Value(Decimal(n)) == n && AllDigits(Decimal(n)) && (n > 0 ==> Decimal(n)[0] != '0')
  {
    if n >= 10 {
      DecimalValue(n / 10);
      var s, c := Decimal(n / 10), Digit(n % 10);
      assert (s + [c])[..|s|] == s && (s + [c])[|s|] == c;
    } else {
      assert [Digit(n)][..0] == "";
    }
  }
}
