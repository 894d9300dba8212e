/** Integer money: 64-bit amounts, rounding and proration. */
module Money {

  const MIN64: int := -0x8000_0000_0000_0000
  const MAX64: int := 0x7FFF_FFFF_FFFF_FFFF
  const MOD64: int := 0x1_0000_0000_0000_0000

  type Int64 = x: int | MIN64 <= x <= MAX64

  /** Two's complement wrap-around of a mathematical result. */
  function Wrap(x: int): (r: Int64)
    ensures MIN64 <= x <= MAX64 ==> r == x
    ensures exists k :: r == x - k * MOD64
  {
    var k := (x - MIN64) / MOD64;
    assert x - MIN64 == k * MOD64 + (x - MIN64) % MOD64;
    x - k * MOD64
  }

  /** Results that agree modulo 2^64 wrap to the same value. */
  lemma WrapSame(x: int, y: int, k: int)
    requires x == y + k * MOD64
    ensures Wrap(x) == Wrap(y)
  {
  }

  /** Wrapping early changes nothing in a sum of multiples. */
  lemma WrapInside(x: int, m: int, d: int)
    ensures Wrap(Wrap(Wrap(x) * m) + d) == Wrap(x * m + d)
  {
    var j :| Wrap(x) == x - j * MOD64;
    var i :| Wrap(Wrap(x) * m) == Wrap(x) * m - i * MOD64;
    assert Wrap(x) * m == x * m - (j * m) * MOD64;
    WrapSame(Wrap(Wrap(x) * m) + d, x * m + d, -(j * m) - i);
  }

  // ---------------------------------------------------------------- rounding

  /** Division rounding halves away from zero, on unbounded integers. */
  function RoundHalfAway(num: int, den: int): int
    requires den > 0
  {
    if num < 0 then -((-num * 2 + den) / (den * 2)) else (num * 2 + den) / (den * 2)
  }

  /** `r` is the integer nearest to num/den; a tie goes away from zero. */
  predicate IsNearest(num: int, den: int, r: int)
  {
    if num >= 0 then 2 * (r * den) - den <= 2 * num < 2 * (r * den) + den
    else 2 * (r * den) - den < 2 * num <= 2 * (r * den) + den
  }

  lemma MulStep(p: int, q: int, m: int)
    requires p < q && m > 0
    ensures p * m + m <= q * m
  {
    assert (q - p - 1) * m >= 0;
    assert q * m == p * m + m + (q - p - 1) * m;
  }

  lemma QuotientUnique(a: int, m: int, q: int)
    requires m > 0
    ensures a / m == q <==> q * m <= a < q * m + m
  {
    var p := a / m;
    assert a == m * p + a % m;
    if p < q { MulStep(p, q, m); }
    if q < p { MulStep(q, p, m); }
  }

  /** Rounding yields the nearest integer, and nothing else is nearest. */
  lemma RoundingIsNearest(num: int, den: int, r: int)
    requires den > 0
    ensures r == RoundHalfAway(num, den) <==> IsNearest(num, den, r)
  {
    if num < 0 {
      QuotientUnique(-num * 2 + den, den * 2, -r);
      assert -r * (den * 2) == -(2 * (r * den));
    } else {
      QuotientUnique(num * 2 + den, den * 2, r);
      assert r * (den * 2) == 2 * (r * den);
    }
  }

  /** `Prorate` without overflow. */
  function Prorate(amount: int, numerator: int, denominator: int): int
  {
    if denominator == 0 || amount == 0 || numerator == 0 then 0
    else if numerator >= denominator then amount
    else if numerator < 0 then 0
    else RoundHalfAway(amount * numerator, denominator)
  }

  /** A share of an amount is the nearest integer to it. */
  lemma ProrateIsNearest(amount: int, n: int, d: int)
    requires d > 0 && 0 <= n <= d
    ensures IsNearest(amount * n, d, Prorate(amount, n, d))
  {
    if amount == 0 || n == 0 {
      assert amount * n == 0;
    } else if n < d {
      RoundingIsNearest(amount * n, d, Prorate(amount, n, d));
    }
  }

  lemma NearestUnique(num: int, den: int, r: int, s: int)
    requires den > 0 && IsNearest(num, den, r) && IsNearest(num, den, s)
    ensures r == s
  {
    RoundingIsNearest(num, den, r);
    RoundingIsNearest(num, den, s);
  }

  /** An upgrade and its mirror-image downgrade agree to the cent. */
  lemma ProrateIsOdd(amount: int, n: int, d: int)
    requires d > 0
    ensures Prorate(-amount, n, d) == -Prorate(amount, n, d)
  {
    assert -amount * n == -(amount * n);
    if amount != 0 && 0 < n < d {
      assert amount * n != 0;
    }
  }

  /** More of the period never costs less. */
  lemma ProrateIsMonotone(amount: int, m: int, n: int, d: int)
    requires d > 0 && amount >= 0 && 0 <= m <= n <= d
    ensures Prorate(amount, m, d) <= Prorate(amount, n, d)
  {
    hide Prorate;
    hide IsNearest;
    ProrateIsNearest(amount, m, d);
    ProrateIsNearest(amount, n, d);
    ProductMonotone(amount, m, n);
    NearestMonotone(amount * m, amount * n, d, Prorate(amount, m, d), Prorate(amount, n, d));
  }

  lemma ProductMonotone(a: nat, m: nat, n: int)
    requires m <= n
    ensures 0 <= a * m <= a * n
  {
    assert a * (n - m) >= 0;
    assert a * n == a * m + a * (n - m);
  }

  lemma NearestMonotone(x: int, y: int, d: int, r: int, s: int)
    requires d > 0 && 0 <= x <= y && IsNearest(x, d, r) && IsNearest(y, d, s)
    ensures r <= s
  {
    if s < r {
      MulStep(s, r, d);
    }
  }

  /** The share used and the share left add up to the amount, except on an exact
      half, where both round up and the sum is one more. */
  lemma ComplementaryShares(amount: int, n: int, d: int)
    requires d > 0 && amount >= 0 && 0 <= n <= d
    ensures Prorate(amount, n, d) + Prorate(amount, d - n, d) ==
              if 2 * ((amount * n) % d) == d then amount + 1 else amount
  {
    hide Prorate;
    hide IsNearest;
    var x, y := amount * n, amount * (d - n);
    SplitProduct(amount, n, d);
    ProrateIsNearest(amount, n, d);
    ProrateIsNearest(amount, d - n, d);
    SharesAddUp(amount, d, x, y, Prorate(amount, n, d), Prorate(amount, d - n, d));
  }

  lemma SplitProduct(amount: int, n: int, d: int)
    requires amount >= 0 && 0 <= n <= d
    ensures amount * n >= 0 && amount * (d - n) >= 0
    ensures amount * n + amount * (d - n) == amount * d
  {
  }

  lemma SharesAddUp(amount: int, d: int, x: int, y: int, r: int, s: int)
    requires d > 0 && x >= 0 && y >= 0 && x + y == amount * d
    requires IsNearest(x, d, r) && IsNearest(y, d, s)
    ensures r + s == if 2 * (x % d) == d then amount + 1 else amount
  {
    hide IsNearest;
    var q, rem := x / d, x % d;
    DivMod(x, d);
    SharesOfDivision(amount, d, q, rem, x, y);
    NearestUnique(x, d, r, q + if 2 * rem >= d then 1 else 0);
    NearestUnique(y, d, s, amount - q - if 2 * rem > d then 1 else 0);
  }

  lemma DivMod(x: int, d: int)
    requires d > 0
    ensures x == d * (x / d) + x % d && 0 <= x % d < d
  {
  }

  lemma SharesOfDivision(amount: int, d: int, q: int, rem: int, x: int, y: int)
    requires 0 <= rem < d && x >= 0 && y >= 0
    requires x == d * q + rem && x + y == amount * d
    ensures IsNearest(x, d, q + if 2 * rem >= d then 1 else 0)
    ensures IsNearest(y, d, amount - q - if 2 * rem > d then 1 else 0)
  {
    var qd := q * d;
    assert (q + 1) * d == qd + d;
    assert (amount - q) * d == amount * d - qd;
    assert (amount - q - 1) * d == amount * d - qd - d;
  }

  /** Outside a proper part there is nothing to round: no part of nothing, all of it
      from the whole on, nothing for a negative part. */
  lemma ProrateEdges(amount: int, n: int, d: int)
    ensures d == 0 || amount == 0 || n == 0 ==> Prorate(amount, n, d) == 0
    ensures d != 0 && n != 0 && n >= d ==> Prorate(amount, n, d) == amount
    ensures n < 0 && n < d ==> Prorate(amount, n, d) == 0
  {
    hide RoundHalfAway;
  }

  // ------------------------------------------------------------ 64-bit width

  /** Go's `/` by a positive divisor: truncation toward zero. */
  function Quotient(a: int, b: int): int
    requires b > 0
  {
    if a < 0 then -(-a / b) else a / b
  }

  /** ... and by any divisor. */
  function Quotient64(a: int, b: int): int
    requires b != 0
  {
    if b > 0 then Quotient(a, b) else -Quotient(a, -b)
  }

  lemma WrapTwice(d: int)
    requires 0 < d <= MAX64
    ensures Wrap(d * 2) == if 2 * d <= MAX64 then 2 * d else 2 * d - MOD64
  {
    assert 2 * d > MAX64 ==> (d * 2 - MIN64) / MOD64 == 1;
  }

  /** `divRoundHalfAway` as the machine computes it, for a positive divisor; the
      doubled divisor wraps as well. */
  function DivRound64(num: int, den: int): Int64
    requires MIN64 <= num <= MAX64 && 0 < den <= MAX64
  {
    WrapTwice(den);
    if num < 0 then Wrap(-Quotient64(Wrap(Wrap(Wrap(-num) * 2) + den), Wrap(den * 2)))
    else Wrap(Quotient64(Wrap(Wrap(num * 2) + den), Wrap(den * 2)))
  }

  /** `Prorate` as the machine computes it. */
  function Prorate64(amount: Int64, numerator: Int64, denominator: Int64): Int64
  {
    if denominator == 0 || amount == 0 || numerator == 0 then 0
    else if numerator >= denominator then amount
    else if numerator < 0 then 0
    else DivRound64(Wrap(amount * numerator), denominator)
  }

  /** Outside a proper part of something the machine has nothing to multiply. */
  lemma Prorate64Edges(amount: Int64, n: Int64, d: Int64)
    requires amount == 0 || n <= 0 || n >= d
    ensures Prorate64(amount, n, d) == Prorate(amount, n, d)
  {
    hide DivRound64;
    hide RoundHalfAway;
  }

  function Abs(x: int): nat
  {
    if x < 0 then -x else x
  }

  lemma DivLess(a: int, b: int, m: int)
    requires m > 0 && a + m <= b
    ensures a / m < b / m
  {
    var p, q := a / m, b / m;
    assert a == m * p + a % m && b == m * q + b % m;
    if q <= p {
      if q < p { MulStep(q, p, m); }
    }
  }

  lemma DivShift(a: int, m: int)
    requires m > 0
    ensures (a + m) / m == a / m + 1
  {
    assert a == m * (a / m) + a % m;
    assert (a / m + 1) * m == m * (a / m) + m;
    QuotientUnique(a + m, m, a / m + 1);
  }

  /** For a magnitude `t` whose rounding numerator does not fit, the machine's
      numerator, taken as `w` or, after a sign flip, as `w'`, rounds elsewhere. */
  lemma OverflowRoundsElsewhere(t: int, d: int, w: int, k: int)
    requires t > 0 && 0 < 2 * d <= MAX64 && 2 * t + d > MAX64
    requires 0 <= w <= MAX64 && w == 2 * t + d - k * MOD64
    ensures w / (2 * d) < (2 * t + d) / (2 * d)
  {
    assert k >= 1;
    DivLess(w, 2 * t + d, 2 * d);
  }

  lemma FlippedRoundsElsewhere(t: int, d: int, w: int, k: int)
    requires t > MAX64 && 0 < 2 * d <= MAX64
    requires 0 <= w <= MAX64 + 1 && w == 2 * t - d - k * MOD64
    ensures w / (2 * d) < (2 * t + d) / (2 * d)
  {
    assert k >= 0;
    if k == 0 {
      DivShift(w, 2 * d);
    } else {
      DivLess(w, 2 * t + d, 2 * d);
    }
  }

  lemma ExactIsPositive(t: int, d: int)
    requires t > 0 && 0 < 2 * d <= MAX64 && 2 * t + d > MAX64
    ensures (2 * t + d) / (2 * d) >= 1
  {
    QuotientUnique(2 * t + d, 2 * d, 0);
  }

  lemma QuotientSmall(a: int, b: int)
    requires b >= 2 && MIN64 <= a <= MAX64
    ensures MIN64 <= Quotient(a, b) <= MAX64 && MIN64 <= -Quotient(a, b) <= MAX64
    ensures a >= 0 ==> Quotient(a, b) == a / b >= 0
    ensures a < 0 ==> -Quotient(a, b) == (-a) / b >= 0
  {
    DivBound(if a < 0 then -a else a, b);
  }

  lemma DivBound(m: int, b: int)
    requires m >= 0 && b >= 1
    ensures 0 <= m / b <= m
  {
    var q := m / b;
    assert m == b * q + m % b;
    QuotientUnique(m, b, q);
    if q < 0 {
      MulStep(q, 0, b);
    } else {
      assert (b - 1) * q >= 0;
      assert b * q == (b - 1) * q + q;
    }
  }

  lemma QuotientRange(a: int, b: int)
    requires b >= 2 && MIN64 <= a <= MAX64
    ensures MIN64 <= Quotient(a, b) <= MAX64 && MIN64 <= -Quotient(a, b) <= MAX64
  {
    QuotientSmall(a, b);
  }

  /** The machine's rounding of a wrapped product, as one wrapped numerator. */
  lemma DivRound64Unfold(t: int, d: int)
    requires 0 < 2 * d <= MAX64
    ensures Wrap(t) >= 0 ==> DivRound64(Wrap(t), d) == Quotient(Wrap(2 * t + d), 2 * d)
    ensures Wrap(t) < 0 ==> DivRound64(Wrap(t), d) == -Quotient(Wrap(-2 * t + d), 2 * d)
  {
    hide Wrap;
    hide Quotient;
    assert t * 2 + d == 2 * t + d && -t * 2 + d == -2 * t + d && d * 2 == 2 * d;
    WrapTwice(d);
    WrapNegated(t);
    WrapInside(t, 2, d);
    WrapInside(-t, 2, d);
    QuotientRange(Wrap(2 * t + d), 2 * d);
    QuotientRange(Wrap(-2 * t + d), 2 * d);
  }

  lemma WrapNegated(t: int)
    ensures Wrap(-(Wrap(t) as int)) == Wrap(-t)
  {
    var j :| Wrap(t) == t - j * MOD64;
    WrapSame(-(Wrap(t) as int), -t, j);
  }

  lemma DivRound64Fits(t: int, d: int)
    requires 0 < 2 * d <= MAX64 && 2 * Abs(t) + d <= MAX64
    ensures DivRound64(Wrap(t), d) == RoundHalfAway(t, d)
  {
    DivRound64Unfold(t, d);
  }

  lemma DivRound64Overflows(t: int, d: int)
    requires 0 < 2 * d <= MAX64 && t != 0 && 2 * Abs(t) + d > MAX64
    ensures DivRound64(Wrap(t), d) != RoundHalfAway(t, d)
  {
    var m := Abs(t);
    DivRound64Unfold(t, d);
    ExactIsPositive(m, d);
    var straight := (Wrap(t) >= 0) == (t > 0);
    var w := if Wrap(t) >= 0 then Wrap(2 * t + d) else Wrap(-2 * t + d);
    QuotientSmall(w, 2 * d);
    hide DivRound64;
    hide Quotient;
    var k :| w == (if Wrap(t) >= 0 then 2 * t + d else -2 * t + d) - k * MOD64;
    hide Wrap;
    if straight && w >= 0 {
      OverflowRoundsElsewhere(m, d, w, k);
    } else if !straight && w < 0 {
      FlippedRoundsElsewhere(m, d, -w, -k);
    }
  }

  /** On 64-bit integers a share is right exactly when twice the product plus
      the denominator still fits; past that it is always wrong. */
  lemma Prorate64ExactIff(amount: Int64, n: Int64, d: Int64)
    requires amount != 0 && 0 < n < d && 2 * d <= MAX64
    ensures Prorate64(amount, n, d) == Prorate(amount, n, d) <==> 2 * Abs(amount * n) + d <= MAX64
  {
    var t := amount * n;
    assert t != 0;
    hide DivRound64;
    hide RoundHalfAway;
    hide Wrap;
    if 2 * Abs(t) + d <= MAX64 {
      DivRound64Fits(t, d);
    } else {
      DivRound64Overflows(t, d);
    }
  }

  lemma SmallQuotient(a: int, b: int)
    requires a >= 0 && b > 0
    ensures a / b == 0 <==> a < b
    ensures a / b >= 0
  {
    QuotientUnique(a, b, 0);
    DivBound(a, b);
  }

  /** For a denominator so large that its own doubling overflows, the machine
      divides by a negative number. As long as twice the product and the
      denominator together stay below 2^64, the share is right exactly when it is
      nothing and comes out as nothing, or when it is half a unit on the dot. */
  lemma Prorate64LargeIff(amount: Int64, n: Int64, d: Int64)
    requires amount != 0 && 0 < n < d && 2 * d > MAX64 && 2 * Abs(amount * n) + d < MOD64
    ensures Prorate64(amount, n, d) == Prorate(amount, n, d) <==>
              2 * Abs(amount * n) + 3 * d < MOD64 || 2 * Abs(amount * n) == d
  {
    var t := amount * n;
    assert t != 0;
    hide DivRound64;
    hide RoundHalfAway;
    hide Wrap;
    assert Wrap(t) == t;
    if 2 * Abs(t) + d <= MAX64 {
      DivRound64Large(t, d);
    } else {
      DivRound64LargeWraps(t, d);
    }
  }

  lemma DivRound64Large(t: int, d: int)
    requires t != 0 && d <= MAX64 < 2 * d && 2 * Abs(t) + d <= MAX64
    ensures DivRound64(t, d) == RoundHalfAway(t, d) <==> 2 * Abs(t) + 3 * d < MOD64
  {
    var m, e := 2 * Abs(t) + d, MOD64 - 2 * d;
    WrapTwice(d);
    hide Wrap;
    assert Wrap(-t) == -t && Wrap(t * 2) == t * 2 && Wrap(-t * 2) == -t * 2 && Wrap(m) == m;
    SmallQuotient(m, e);
    SmallQuotient(m, 2 * d);
    DivBound(m, e);
    var q, x := m / e, m / (2 * d);
    assert Quotient64(m, 2 * d - MOD64) == -q;
    hide Quotient64;
    assert DivRound64(t, d) == if t < 0 then q else -q;
    assert d * 2 == 2 * d;
    assert RoundHalfAway(t, d) == if t < 0 then -x else x;
  }

  lemma WrapHigh(x: int)
    requires MAX64 < x < MOD64
    ensures Wrap(x) == x - MOD64
  {
    assert (x - MIN64) / MOD64 == 1;
  }

  /** The machine's numerator when the sum passes the sign bit. */
  lemma WrapNumerator(a: int, d: int)
    requires 0 < a && 0 < d <= MAX64 < a + d < MOD64
    ensures Wrap(Wrap(a) + d) == a + d - MOD64
  {
    if a > MAX64 {
      WrapHigh(a);
    } else {
      WrapHigh(a + d);
    }
  }

  /** What the machine divides and what it should have divided. */
  lemma WrappedQuotients(m: int, d: int)
    requires d <= MAX64 < 2 * d && MAX64 < m < MOD64
    ensures (MOD64 - m) / (MOD64 - 2 * d) == m / (2 * d) <==> m == 2 * d
    ensures 0 <= (MOD64 - m) / (MOD64 - 2 * d) <= MAX64
  {
    var e := MOD64 - 2 * d;
    QuotientUnique(MOD64 - m, e, 0);
    QuotientUnique(MOD64 - m, e, 1);
    QuotientUnique(m, 2 * d, 0);
    QuotientUnique(m, 2 * d, 1);
    DivBound(MOD64 - m, e);
  }

  lemma DivRound64LargeWraps(t: int, d: int)
    requires t != 0 && d <= MAX64 < 2 * d && MAX64 < 2 * Abs(t) + d < MOD64
    ensures DivRound64(t, d) == RoundHalfAway(t, d) <==> 2 * Abs(t) == d
  {
    var m := 2 * Abs(t) + d;
    WrapTwice(d);
    WrapNumerator(2 * Abs(t), d);
    WrappedQuotients(m, d);
    hide Wrap;
    assert Wrap(-t) == -t;
    var q, x := (MOD64 - m) / (MOD64 - 2 * d), m / (2 * d);
    assert Quotient64(m - MOD64, 2 * d - MOD64) == q by {
      assert -(m - MOD64) == MOD64 - m && -(2 * d - MOD64) == MOD64 - 2 * d;
    }
    hide Quotient64;
    assert DivRound64(t, d) == if t < 0 then -q else q;
    assert d * 2 == 2 * d;
    assert RoundHalfAway(t, d) == if t < 0 then -x else x;
  }

  /** Half a unit on the dot, right although numerator and divisor both wrap. */
  lemma RightByAccident()
    ensures var n, d := 0x2000_0000_0000_0000, 0x4000_0000_0000_0000;
            && 2 * Abs(n) + d > MAX64 && 2 * Abs(n) + 3 * d >= MOD64
            && Prorate64(1, n, d) == Prorate(1, n, d) == 1
  {
    var n, d := 0x2000_0000_0000_0000, 0x4000_0000_0000_0000;
    assert Wrap(n * 2 + d) == MIN64 && Wrap(d * 2) == MIN64;
    assert Quotient64(MIN64, MIN64) == 1;
  }
}
