/** Decimal numerals and their values. */
module Decimals {
  function Digit(d: nat): char
    requires d < 10
  {
    '0' + d as char
  }

  function Decimal(n: nat): (s: string)
    ensures s != []
  {
    if n < 10 then [Digit(n)] else Decimal(n / 10) + [Digit(n % 10)]
  }

  function Zeros(k: nat): string {
    seq(k, _ => '0')
  }

  predicate IsDigits(s: string) {
    forall i :: 0 <= i < |s| ==> '0' <= s[i] <= '9'
  }

  function Value(s: string): nat
    requires IsDigits(s)
  {
    if s == [] then 0
    else 10 * Value(s[..|s| - 1]) + (s[|s| - 1] - '0') as nat
  }

  lemma {:induction false} DecimalValue(n: nat, zeros: nat)
    ensures IsDigits(Zeros(zeros) + Decimal(n))
    ensures Value(Zeros(zeros) + Decimal(n)) == n
    decreases n, zeros
  {
    var s := Zeros(zeros) + Decimal(n);
    var front := s[..|s| - 1];
    if n >= 10 {
      DecimalValue(n / 10, zeros);
      assert front == Zeros(zeros) + Decimal(n / 10);
    } else {
      ZerosValue(zeros);
      assert front == Zeros(zeros);
    }
    assert s == front + [Digit(n % 10)];
  }

  lemma {:induction false} ZerosValue(k: nat)
    ensures IsDigits(Zeros(k)) && Value(Zeros(k)) == 0
  {
    if k > 0 {
      ZerosValue(k - 1);
      assert Zeros(k)[..k - 1] == Zeros(k - 1);
    }
  }

  function Pow10(k: nat): (p: nat)
    ensures p > 0
  {
    if k == 0 then 1 else 10 * Pow10(k - 1)
  }

  /** What is left of n without its last k digits. */
  function DropDigits(n: nat, k: nat): nat {
    if k == 0 then n else DropDigits(n / 10, k - 1)
  }

  lemma {:induction false} LeadingDigit(n: nat, k: nat)
    requires 1 <= DropDigits(n, k) <= 9
    ensures Decimal(n)[0] == Digit(DropDigits(n, k)) && |Decimal(n)| == k + 1
  {
    if k > 0 {
      LeadingDigit(n / 10, k - 1);
    }
  }
}
