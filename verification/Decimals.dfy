/** Decimal notation of numbers and its reading. */
module Decimals {

  predicate Digits(s: string) { forall i | 0 <= i < |s| :: '0' <= s[i] <= '9' }

  function Pow10(k: nat): (r: nat)
    ensures r > 0
  {
    if k == 0 then 1 else 10 * Pow10(k - 1)
  }

  /** The number that the digits stand for. */
  function Numeric(s: string): nat
    requires Digits(s)
  {
    if s == [] then 0 else 10 * Numeric(s[..|s| - 1]) + (s[|s| - 1] as nat - '0' as nat)
  }

  /** The first digit counts by its place. */
  lemma {:induction false} NumericFirst(s: string)
    requires Digits(s) && s != []
    ensures Numeric(s) == (s[0] as nat - '0' as nat) * Pow10(|s| - 1) + Numeric(s[1..])
  {
    var d := s[0] as nat - '0' as nat;
    if |s| == 1 {
      assert s[..0] == [] && s[1..] == [];
    } else {
      var front := s[..|s| - 1];
      NumericFirst(front);
      assert s[1..][..|s| - 2] == front[1..] && s[1..][|s| - 2] == s[|s| - 1];
      TenTimes(d, Pow10(|s| - 2));
    }
  }

  function Digit(d: nat): char
    requires d < 10
  {
    "0123456789"[d]
  }

  /** Decimal notation. */
  function Decimal(n: nat): string {
    if n < 10 then [Digit(n)] else Decimal(n / 10) + [Digit(n % 10)]
  }

  predicate IsDecimal(s: string) { s != [] && forall i | 0 <= i < |s| :: '0' <= s[i] <= '9' }

  lemma {:induction false} DecimalShape(n: nat)
    ensures IsDecimal(Decimal(n))
  {
    if n >= 10 {
      DecimalShape(n / 10);
    }
  }

  lemma {:induction false} DecimalInjective(m: nat, n: nat)
    requires Decimal(m) == Decimal(n)
    ensures m == n
  {
    DecimalShape(m / 10);
    DecimalShape(n / 10);
    if m < 10 {
      assert |Decimal(n)| == 1;
      assert Digit(m) == Digit(n);
    } else {
      assert |Decimal(m)| > 1;
      LastDigit(Decimal(m / 10), m % 10, Decimal(n / 10), n % 10);
      DecimalInjective(m / 10, n / 10);
    }
  }

  /** The decimal notation is read back, and has no leading zero. */
  lemma {:induction false} DecimalIsReadBack(n: nat)
    ensures Digits(Decimal(n)) && Numeric(Decimal(n)) == n
    ensures n > 0 ==> Decimal(n)[0] != '0'
  {
    if n >= 10 {
      DecimalIsReadBack(n / 10);
      var s := Decimal(n);
      assert s[..|s| - 1] == Decimal(n / 10);
    } else {
      assert Decimal(n)[..0] == [];
    }
  }

  lemma TenTimes(d: nat, k: nat)
    ensures d * (10 * k) == 10 * (d * k)
  {
  }

  lemma LastDigit(a: string, d: nat, b: string, e: nat)
    requires d < 10 && e < 10 && a + [Digit(d)] == b + [Digit(e)]
    ensures a == b && d == e
  {
    var s := a + [Digit(d)];
    assert s[|s| - 1] == Digit(d) && (b + [Digit(e)])[|s| - 1] == Digit(e);
    assert a == s[..|s| - 1] == b;
  }
}
