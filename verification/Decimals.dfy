/** Decimal arithmetic as the pricing code uses it: exact decimals, rounding half up to
    the paisa, and the 28-significant-digit context that division runs in. */
module Decimals {

  function Pow10(n: nat): (p: nat)
    ensures p >= 1
  {
    if n == 0 then 1 else 10 * Pow10(n - 1)
  }

  /** The exact number coef / 10^places. */
  datatype Decimal = Decimal(coef: int, places: nat)

  /** Order of the numbers two decimals denote, whatever their scales. */
  predicate AtMost(a: Decimal, b: Decimal) {
    a.coef * Pow10(b.places) <= b.coef * Pow10(a.places)
  }

  /** The integer nearest to n / d, an exact half going away from zero. */
  function HalfUp(n: int, d: int): int
    requires d > 0
  {
    if n >= 0 then (2 * n + d) / (2 * d) else -((2 * -n + d) / (2 * d))
  }

  /** money(): a decimal number of rupees, as whole paise. */
  function Money(v: Decimal): int {
    HalfUp(100 * v.coef, Pow10(v.places))
  }

  /** q is n / d rounded to the nearest integer with halves away from zero. */
  predicate IsHalfUp(q: int, n: int, d: int) {
    if n >= 0 then 2 * n - d < 2 * d * q <= 2 * n + d
    else 2 * n - d <= 2 * d * q < 2 * n + d
  }

  lemma DivBounds(a: nat, b: int)
    requires b > 0
    ensures 0 <= a / b
    ensures b * (a / b) <= a < b * (a / b) + b
  {
  }

  lemma HalfUpMeaning(n: int, d: int)
    requires d > 0
    ensures IsHalfUp(HalfUp(n, d), n, d)
  {
    var a := if n >= 0 then 2 * n + d else 2 * -n + d;
    DivBounds(a, 2 * d);
  }

  lemma HalfUpUnique(q: int, r: int, n: int, d: int)
    requires d > 0 && IsHalfUp(q, n, d) && IsHalfUp(r, n, d)
    ensures q == r
  {
    Discrete(q, r, 2 * d);
    Discrete(r, q, 2 * d);
  }

  /** Distinct multiples of k are at least k apart. */
  lemma Discrete(q: int, r: int, k: int)
    requires k > 0
    ensures q < r ==> k * q + k <= k * r
  {
    if q < r {
      assert k * (q + 1) <= k * r;
    }
  }

  lemma HalfUpMonotone(n1: int, d1: int, n2: int, d2: int)
    requires d1 > 0 && d2 > 0 && n1 * d2 <= n2 * d1
    ensures HalfUp(n1, d1) <= HalfUp(n2, d2)
  {
    var q1, q2 := HalfUp(n1, d1), HalfUp(n2, d2);
    HalfUpMeaning(n1, d1);
    HalfUpMeaning(n2, d2);
    // Both roundings on the common scale d1 * d2.
    OnScale(q1, n1, d1, d2);
    OnScale(q2, n2, d2, d1);
    assert d1 * d2 == d2 * d1;
    assert n1 >= 0 ==> n2 >= 0 by {
      if n1 >= 0 {
        SameSign(n1, d1, n2, d2);
      }
    }
    Discrete(q2, q1, 2 * (d1 * d2));
  }

  lemma SameSign(n1: int, d1: int, n2: int, d2: int)
    requires d1 > 0 && d2 > 0 && n1 * d2 <= n2 * d1 && n1 >= 0
    ensures n2 >= 0
  {
    assert n1 * d2 >= 0;
  }

  /** A rounding to the unit d, restated on a scale k times as fine. */
  lemma OnScale(q: int, n: int, d: int, k: int)
    requires d > 0 && k > 0 && IsHalfUp(q, n, d)
    ensures n >= 0 ==> 2 * (n * k) - d * k < 2 * (d * k) * q <= 2 * (n * k) + d * k
    ensures n < 0 ==> 2 * (n * k) - d * k <= 2 * (d * k) * q < 2 * (n * k) + d * k
  {
    assert 2 * d * q * k == 2 * (d * k) * q;
    assert (2 * n - d) * k == 2 * (n * k) - d * k;
    assert (2 * n + d) * k == 2 * (n * k) + d * k;
    if n >= 0 {
      Scale(2 * d * q, 2 * n + d, k);
      StrictScale(2 * n - d, 2 * d * q, k);
    } else {
      StrictScale(2 * d * q, 2 * n + d, k);
      Scale(2 * n - d, 2 * d * q, k);
    }
  }

  lemma Scale(a: int, b: int, k: int)
    requires a <= b && k > 0
    ensures a * k <= b * k
  {
  }

  lemma StrictScale(a: int, b: int, k: int)
    requires a < b && k > 0
    ensures a * k < b * k
  {
  }

  /** money() is within half a paisa, takes an exact half away from zero, and mirrors at zero. */
  lemma MoneyWithinHalfPaisa(v: Decimal)
    ensures IsHalfUp(Money(v), 100 * v.coef, Pow10(v.places))
    ensures Money(Decimal(-v.coef, v.places)) == -Money(v)
  {
    HalfUpMeaning(100 * v.coef, Pow10(v.places));
    HalfUpMirrors(100 * v.coef, Pow10(v.places));
    assert 100 * -v.coef == -(100 * v.coef);
  }

  lemma HalfUpMirrors(n: int, d: int)
    requires d > 0
    ensures HalfUp(-n, d) == -HalfUp(n, d)
  {
    if n == 0 {
      assert d / (2 * d) == 0 by {
        DivBounds(d, 2 * d);
        Discrete(0, d / (2 * d), 2 * d);
        Discrete(d / (2 * d), 0, 2 * d);
      }
    }
  }

  /** money() never reorders two amounts. */
  lemma MoneyMonotone(a: Decimal, b: Decimal)
    requires AtMost(a, b)
    ensures Money(a) <= Money(b)
  {
    var pa, pb := Pow10(a.places), Pow10(b.places);
    assert (100 * a.coef) * pb == 100 * (a.coef * pb);
    assert (100 * b.coef) * pa == 100 * (b.coef * pa);
    HalfUpMonotone(100 * a.coef, pa, 100 * b.coef, pb);
  }

  /** An amount already in whole paise is left alone, so money() is idempotent. */
  lemma MoneyOfPaise(paise: int)
    ensures Money(Decimal(paise, 2)) == paise
  {
    assert Pow10(2) == 100 by {
      assert Pow10(1) == 10 && Pow10(0) == 1;
    }
    HalfUpMeaning(100 * paise, 100);
    HalfUpUnique(Money(Decimal(paise, 2)), paise, 100 * paise, 100);
  }
}
