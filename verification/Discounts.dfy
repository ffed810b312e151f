/** The discount badge: a whole percentage computed through 28-digit Decimal division, and
    the proof that the limited precision never changes the digit shown. */
module Discounts {
  import opened Decimals

  const PRECISION: nat := 28

  /** The largest paise value of a 10-digit, 2-place column, plus one. */
  const COLUMN_LIMIT: int := 10_000_000_000

  predicate HasDiscount(price: int, mrp: int) {
    mrp > 0 && mrp > price
  }

  function Saving(price: int, mrp: int): int {
    if HasDiscount(price, mrp) then Money(Decimal(mrp - price, 2)) else 0
  }

  /** The integer nearest to n / d, an exact half going to the even neighbour. */
  function HalfEven(n: nat, d: int): nat
    requires d > 0
  {
    var q, r := n / d, n % d;
    if 2 * r < d || (2 * r == d && q % 2 == 0) then q else q + 1
  }

  lemma TenTimes(n: nat, places: nat)
    requires n > 0
    ensures n * Pow10(places + 1) == 10 * (n * Pow10(places)) && n * Pow10(places) > 0
  {
    var p := Pow10(places);
    assert Pow10(places + 1) == 10 * p;
    assert n * p >= p;
  }

  /** How many fractional digits a quotient needs to show `digits` significant ones. */
  function QuotientPlaces(n: nat, d: nat, digits: nat, places: nat): (r: nat)
    requires n > 0 && d > 0 && digits > 0
    requires places == 0 || n * Pow10(places - 1) < d * Pow10(digits - 1)
    ensures d * Pow10(digits - 1) <= n * Pow10(r)
    ensures r == 0 || n * Pow10(r - 1) < d * Pow10(digits - 1)
    decreases d * Pow10(digits - 1) - n * Pow10(places)
  {
    if d * Pow10(digits - 1) <= n * Pow10(places) then places
    else
      TenTimes(n, places);
      QuotientPlaces(n, d, digits, places + 1)
  }

  /** n / d correctly rounded to `digits` significant digits. */
  function Divide(n: nat, d: nat, digits: nat): Decimal
    requires n > 0 && d > 0 && digits > 0
  {
    var places := QuotientPlaces(n, d, digits, 0);
    Decimal(HalfEven(n * Pow10(places), d), places)
  }

  /** How many digits of a coefficient lie beyond the first `digits`. */
  function ExtraDigits(coef: nat, digits: nat, extra: nat): (r: nat)
    requires extra == 0 || Pow10(digits + extra - 1) <= coef
    ensures coef < Pow10(digits + r)
    ensures r == 0 || Pow10(digits + r - 1) <= coef
    decreases coef - Pow10(digits + extra)
  {
    if coef < Pow10(digits + extra) then extra
    else ExtraDigits(coef, digits, extra + 1)
  }

  /** The context's rounding of an exact result: digits beyond the precision are dropped, half
      to even. A result whose dropped digits reach left of the point never arises here. */
  function InContext(v: Decimal, digits: nat): Decimal
    requires v.coef >= 0
  {
    var extra := ExtraDigits(v.coef, digits, 0);
    if extra <= v.places then Decimal(HalfEven(v.coef, Pow10(extra)), v.places - extra) else v
  }

  /** int(v): truncation, here of a number that is not negative. */
  function Truncated(v: Decimal): nat
    requires v.coef >= 0
  {
    DivBounds(v.coef, Pow10(v.places));
    v.coef / Pow10(v.places)
  }

  /** int(n / d * 100) in a context of `digits` digits. */
  function PercentOf(n: nat, d: nat, digits: nat): nat
    requires n > 0 && d > 0 && digits > 0
  {
    var quotient := Divide(n, d, digits);
    Truncated(InContext(Decimal(quotient.coef * 100, quotient.places), digits))
  }

  /** The badge: the saving as a truncated percentage, zero unless the MRP is above the price. */
  function DiscountPercent(price: int, mrp: int): nat {
    if !HasDiscount(price, mrp) then 0 else PercentOf(mrp - price, mrp, PRECISION)
  }

  lemma HalfEvenWithinHalf(n: nat, d: int)
    requires d > 0
    ensures 2 * n - d <= 2 * (d * HalfEven(n, d)) <= 2 * n + d
    ensures n % d == 0 ==> d * HalfEven(n, d) == n
  {
    var q, r := n / d, n % d;
    assert n == d * q + r;
    assert d * (q + 1) == d * q + d;
  }

  lemma Pow10Splits(a: nat, b: nat)
    ensures Pow10(a + b) == Pow10(a) * Pow10(b)
  {
    if a > 0 {
      Pow10Splits(a - 1, b);
      assert Pow10(a + b) == 10 * Pow10(a - 1 + b);
      assert 10 * (Pow10(a - 1) * Pow10(b)) == (10 * Pow10(a - 1)) * Pow10(b);
    } else {
      assert Pow10(0) == 1;
    }
  }

  lemma Pow10Monotone(a: nat, b: nat)
    requires a <= b
    ensures Pow10(a) <= Pow10(b)
  {
    if a < b {
      Pow10Monotone(a, b - 1);
    }
  }

  lemma Pow10Seventeen()
    ensures Pow10(17) == 100_000_000_000_000_000
    ensures Pow10(27) == 1_000_000_000_000_000_000_000_000_000
  {
    assert Pow10(0) == 1 && Pow10(1) == 10 && Pow10(2) == 100 && Pow10(3) == 1000;
    assert Pow10(4) == 10_000 && Pow10(5) == 100_000;
    Pow10Splits(5, 5);
    Pow10Splits(10, 5);
    Pow10Splits(15, 2);
    Pow10Splits(17, 10);
  }

  /** A quotient of column values is carried to at least seventeen decimal places. */
  lemma PlacesAreMany(n: nat, d: nat)
    requires 0 < n <= 2 * COLUMN_LIMIT && 0 < d
    ensures QuotientPlaces(n, d, PRECISION, 0) >= 17
  {
    var r := QuotientPlaces(n, d, PRECISION, 0);
    if r < 17 {
      Pow10Seventeen();
      Pow10Monotone(r, 16);
      Pow10Splits(16, 1);
      assert Pow10(1) == 10 by { assert Pow10(0) == 1; }
      TooFew(n, d, Pow10(r), Pow10(27));
    }
  }

  lemma TooFew(n: nat, d: nat, p: nat, q: nat)
    requires 0 < n <= 20_000_000_000 && 0 < d && 0 < p <= 10_000_000_000_000_000
    requires q == 1_000_000_000_000_000_000_000_000_000
    ensures n * p < d * q
  {
    Scale(n, 20_000_000_000, p);
    assert q <= d * q;
  }

  /** The arithmetic core: a rounding error under half a unit in the seventeenth place
      cannot move 100 * n / d across an integer. */
  lemma RoundingKeepsPercent(n: nat, d: nat, p: nat, c: nat, k: nat)
    requires 0 < d && p % 100 == 0 && 50 * d < p
    requires 2 * (n * p) - d <= 2 * (d * c) <= 2 * (n * p) + d
    requires (n * p) % d == 0 ==> d * c == n * p
    requires k * d <= 100 * n < k * d + d
    ensures k * p <= 100 * c < k * p + p
  {
    if 100 * n == k * d {
      WholePercent(n, d, p, c, k);
    } else {
      Hundredfold(n, p);
      Hundredfold(c, d);
      Scale(k * d + 1, 100 * n, p);
      Regroup(k, d, p);
      CancelLess(d, k * p, 100 * c);
    }
    BelowNext(n, d, p, c, k);
  }

  lemma Hundredfold(a: nat, b: nat)
    ensures 100 * (a * b) == (100 * a) * b == b * (100 * a)
    ensures 100 * (b * a) == b * (100 * a)
  {
  }

  lemma Regroup(k: nat, d: nat, p: nat)
    ensures (k * d + 1) * p == d * (k * p) + p
    ensures (k * d + d - 1) * p == d * (k * p + p) - p
  {
    assert (k * d) * p == d * (k * p);
    assert (k * d + 1) * p == (k * d) * p + p;
    assert (k * d + d - 1) * p == (k * d) * p + d * p - p;
    assert d * (k * p + p) == d * (k * p) + d * p;
  }

  /** When the percentage is whole the quotient is exact, so nothing is rounded. */
  lemma WholePercent(n: nat, d: nat, p: nat, c: nat, k: nat)
    requires 0 < d && p % 100 == 0 && 100 * n == k * d
    requires (n * p) % d == 0 ==> d * c == n * p
    ensures 100 * c == k * p
  {
    var u := p / 100;
    Regrouped(n, d, u, k);
    assert n * p == (u * k) * d by { assert p == 100 * u; }
    MultipleDivides(u * k, d);
    Cancel(d, c, u * k);
    assert k * p == 100 * (u * k) by { assert p == 100 * u; }
  }

  lemma Regrouped(n: nat, d: nat, u: nat, k: nat)
    requires 100 * n == k * d
    ensures n * (100 * u) == (u * k) * d
  {
    calc {
      n * (100 * u);
      (100 * n) * u;
      (k * d) * u;
      (u * k) * d;
    }
  }

  lemma BelowNext(n: nat, d: nat, p: nat, c: nat, k: nat)
    requires 0 < d && 50 * d < p && 2 * (d * c) <= 2 * (n * p) + d && 100 * n < k * d + d
    ensures 100 * c < k * p + p
  {
    Hundredfold(n, p);
    Hundredfold(c, d);
    Scale(100 * n, k * d + d - 1, p);
    Regroup(k, d, p);
    CancelLess(d, 100 * c, k * p + p);
  }

  lemma MultipleDivides(q: nat, d: nat)
    requires d > 0
    ensures (q * d) % d == 0
  {
    DivBounds(q * d, d);
    var r := (q * d) / d;
    Discrete(q, r, d);
    Discrete(r, q, d);
  }

  lemma Cancel(d: nat, a: int, b: int)
    requires d > 0 && d * a == b * d
    ensures a == b
  {
    Discrete(a, b, d);
    Discrete(b, a, d);
  }

  lemma CancelLess(d: nat, a: int, b: int)
    requires d > 0 && d * a < d * b
    ensures a < b
  {
    Discrete(b, a, d);
  }

  lemma QuotientIs(n: int, d: nat, q: int)
    requires d > 0 && q * d <= n < q * d + d && n >= 0
    ensures n / d == q
  {
    DivBounds(n, d);
    Discrete(q, n / d, d);
    Discrete(n / d, q, d);
  }

  lemma Pow10Hundreds(n: nat)
    requires n >= 2
    ensures Pow10(n) % 100 == 0
  {
    assert Pow10(n) == 10 * Pow10(n - 1) == 100 * Pow10(n - 2);
  }

  /** The badge is the exact floor of the percentage, for every pair of column values. */
  lemma PercentIsExactFloor(price: int, mrp: int)
    requires -COLUMN_LIMIT < price < COLUMN_LIMIT && mrp < COLUMN_LIMIT
    requires HasDiscount(price, mrp)
    ensures DiscountPercent(price, mrp) == 100 * (mrp - price) / mrp
  {
    QuotientIsClose(mrp - price, mrp);
    ClosePercent(mrp - price, mrp, PRECISION);
  }

  lemma ClosePercent(n: nat, d: nat, digits: nat)
    requires 0 < n && 0 < d && digits > 0
    requires CloseQuotient(n, d, digits)
    ensures PercentOf(n, d, digits) == 100 * n / d
  {
    var q, k := Divide(n, d, digits), 100 * n / d;
    DivBounds(100 * n, d);
    assert k * d == d * k;
    RoundingKeepsPercent(n, d, Pow10(q.places), q.coef, k);
    TimesHundred(q, digits, k);
  }

  /** The quotient is carried far enough, and rounded closely enough, for whole percents. */
  predicate CloseQuotient(n: nat, d: nat, digits: nat)
    requires 0 < n && 0 < d && digits > 0
  {
    var q := Divide(n, d, digits);
    var p := Pow10(q.places);
    && p % 100 == 0 && 50 * d < p && q.places >= 17
    && 0 <= q.coef <= Pow10(digits)
    && 2 * (n * p) - d <= 2 * (d * q.coef) <= 2 * (n * p) + d
    && ((n * p) % d == 0 ==> d * q.coef == n * p)
  }

  /** What the 28-digit context guarantees about a quotient of column values. */
  lemma QuotientIsClose(n: nat, d: nat)
    requires 0 < n <= 2 * COLUMN_LIMIT && 0 < d < COLUMN_LIMIT
    ensures CloseQuotient(n, d, PRECISION)
  {
    var places := QuotientPlaces(n, d, PRECISION, 0);
    PlacesAreMany(n, d);
    Pow10Seventeen();
    Pow10Monotone(17, places);
    Pow10Hundreds(places);
    HalfEvenWithinHalf(n * Pow10(places), d);
    CoefficientFits(n, d, PRECISION);
  }

  /** The quotient's coefficient has at most `digits` digits, or is the next power of ten. */
  lemma CoefficientFits(n: nat, d: nat, digits: nat)
    requires 0 < n && 0 < d && digits > 0 && QuotientPlaces(n, d, digits, 0) > 0
    ensures Divide(n, d, digits).coef <= Pow10(digits)
  {
    var places := QuotientPlaces(n, d, digits, 0);
    assert n * Pow10(places) == 10 * (n * Pow10(places - 1));
    assert d * Pow10(digits) == 10 * (d * Pow10(digits - 1));
    HalfEvenAtMost(n * Pow10(places), d, Pow10(digits));
  }

  lemma HalfEvenAtMost(n: nat, d: nat, top: nat)
    requires d > 0 && n < d * top
    ensures HalfEven(n, d) <= top
  {
    DivBounds(n, d);
    Discrete(top, n / d, d);
    Discrete(n / d, top, d);
  }

  /** Multiplying by 100 only appends zeros, so the context's second rounding loses nothing. */
  lemma TimesHundred(q: Decimal, digits: nat, k: nat)
    requires digits > 0 && 0 <= q.coef <= Pow10(digits) && q.places >= 3
    requires k * Pow10(q.places) <= 100 * q.coef < k * Pow10(q.places) + Pow10(q.places)
    ensures Truncated(InContext(Decimal(q.coef * 100, q.places), digits)) == k
  {
    var coef := q.coef * 100;
    var extra := ExtraDigits(coef, digits, 0);
    DroppedAreZeros(q.coef, digits);
    Pow10Splits(extra, q.places - extra);
    HalfEvenWithinHalf(coef, Pow10(extra));
    StripZeros(Pow10(extra), Pow10(q.places - extra), HalfEven(coef, Pow10(extra)), k, coef);
  }

  lemma StripZeros(low: nat, high: nat, kept: nat, k: nat, coef: nat)
    requires low > 0 && high > 0 && low * kept == coef
    requires k * (low * high) <= coef < k * (low * high) + low * high
    ensures kept / high == k
  {
    assert k * (low * high) == low * (k * high);
    assert low * (k * high + high) == low * (k * high) + low * high;
    CancelLess(low, kept, k * high + high);
    Discrete(kept, k * high, low);
    QuotientIs(kept, high, k);
  }

  lemma DroppedAreZeros(coef: nat, digits: nat)
    requires digits > 0 && coef <= Pow10(digits)
    ensures ExtraDigits(coef * 100, digits, 0) <= 3
    ensures (coef * 100) % Pow10(ExtraDigits(coef * 100, digits, 0)) == 0
  {
    var extra := ExtraDigits(coef * 100, digits, 0);
    SmallPowers();
    Pow10Splits(digits, 2);
    if extra >= 3 {
      Pow10Monotone(digits + 2, digits + extra - 1);
      AllNines(coef, digits, extra);
      MultipleDivides(Pow10(digits - 1), 1000);
    } else {
      assert extra == 0 || extra == 1 || extra == 2;
    }
  }

  /** Only the power of ten itself overflows by three digits, and it is divisible by 1000. */
  lemma AllNines(coef: nat, digits: nat, extra: nat)
    requires digits > 0 && coef <= Pow10(digits) && extra >= 3
    requires Pow10(digits + extra - 1) <= coef * 100
    ensures extra == 3 && coef * 100 == Pow10(digits - 1) * 1000
  {
    Pow10Monotone(digits + 2, digits + extra - 1);
    assert Pow10(digits + 2) == 10 * Pow10(digits + 1) == 100 * Pow10(digits);
    if extra >= 4 {
      Pow10Monotone(digits + 3, digits + extra - 1);
    }
  }

  lemma SmallPowers()
    ensures Pow10(0) == 1 && Pow10(1) == 10 && Pow10(2) == 100 && Pow10(3) == 1000
  {
  }

  /** The badge never overstates: what it says is at most what is saved, by under one percent. */
  lemma BadgeNeverOverstates(price: int, mrp: int)
    requires -COLUMN_LIMIT < price < COLUMN_LIMIT && mrp < COLUMN_LIMIT
    requires HasDiscount(price, mrp)
    ensures DiscountPercent(price, mrp) * mrp <= 100 * Saving(price, mrp) < (DiscountPercent(price, mrp) + 1) * mrp
    ensures 0 <= price ==> DiscountPercent(price, mrp) <= 100
  {
    var n, d := 100 * (mrp - price), mrp;
    PercentIsExactFloor(price, mrp);
    MoneyOfPaise(mrp - price);
    FloorFacts(n, d, DiscountPercent(price, mrp));
  }

  /** The badge and the saving, over every price and MRP the columns hold: shown exactly when the MRP
      is set and above the price, and nothing otherwise. */
  lemma DiscountMeaning(price: int, mrp: int)
    requires -COLUMN_LIMIT < price < COLUMN_LIMIT && mrp < COLUMN_LIMIT
    ensures 0 < mrp && price < mrp ==>
      DiscountPercent(price, mrp) == 100 * (mrp - price) / mrp && Saving(price, mrp) == mrp - price
    ensures !(0 < mrp && price < mrp) ==> DiscountPercent(price, mrp) == 0 && Saving(price, mrp) == 0
  {
    if HasDiscount(price, mrp) {
      PercentIsExactFloor(price, mrp);
      MoneyOfPaise(mrp - price);
    }
  }

  lemma FloorFacts(n: nat, d: nat, k: nat)
    requires 0 < d && k == n / d
    ensures k * d <= n < (k + 1) * d
    ensures n <= 100 * d ==> k <= 100
  {
    DivBounds(n, d);
    assert k * d == d * k && (k + 1) * d == d * k + d;
    Discrete(100, k, d);
  }
}
