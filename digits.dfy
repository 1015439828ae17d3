/**
 * Decimal digit strings as Python's `decimal` module keeps them: a
 * coefficient written as a big-endian sequence of digits, and powers of ten.
 */
module Digits {

  type Digit = x: int | 0 <= x < 10

  function Pow10(k: nat): (r: nat)
    ensures r >= 1
  {
    if k == 0 then 1 else 10 * Pow10(k - 1)
  }

  lemma {:induction false} Pow10Add(a: nat, b: nat)
    ensures Pow10(a + b) == Pow10(a) * Pow10(b)
  {
    if b > 0 {
      Pow10Add(a, b - 1);
      assert Pow10(a + b) == 10 * Pow10(a + b - 1);
    }
  }

  lemma {:induction false} Pow10Monotone(a: nat, b: nat)
    requires a <= b
    ensures Pow10(a) <= Pow10(b)
  {
    if a < b {
      Pow10Monotone(a, b - 1);
    }
  }

  /** The number a big-endian digit sequence denotes; `[]` denotes 0. */
  function Value(ds: seq<Digit>): nat
  {
    if ds == [] then 0 else 10 * Value(ds[..|ds| - 1]) + ds[|ds| - 1]
  }

  /** A coefficient of n digits is below 10^n. */
  lemma {:induction false} ValueBound(ds: seq<Digit>)
    ensures Value(ds) < Pow10(|ds|)
  {
    if ds != [] {
      ValueBound(ds[..|ds| - 1]);
    }
  }

  /** The shortest digit sequence of n: no leading zero, and `[0]` for zero. */
  function ToDigits(n: nat): (ds: seq<Digit>)
    ensures |ds| >= 1
    ensures ds[0] != 0 || ds == [0]
  {
    if n < 10 then [n] else ToDigits(n / 10) + [n % 10]
  }

  lemma {:induction false} ToDigitsValue(n: nat)
    ensures Value(ToDigits(n)) == n
  {
    if n >= 10 {
      ToDigitsValue(n / 10);
      var ds := ToDigits(n);
      assert ds[..|ds| - 1] == ToDigits(n / 10);
    }
  }

  /** A number below 10^k needs at most k digits. */
  lemma {:induction false} ToDigitsLength(n: nat, k: nat)
    requires 1 <= k
    requires n < Pow10(k)
    ensures |ToDigits(n)| <= k
  {
    if n >= 10 {
      assert k >= 2;
      ToDigitsLength(n / 10, k - 1);
    }
  }
}
