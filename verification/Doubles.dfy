/**
 Division, multiplication and rounding of positive doubles: the result is the double nearest to the
 exact one, an exact tie going to the even mantissa. The range of exponents is taken as unlimited.
 */
module Doubles {
  import opened Arithmetic

  const MANTISSA_LIMIT: nat := 0x20_0000_0000_0000

  /** A quotient; the value of a double is one whose denominator is a power of two. */
  datatype Ratio = Ratio(num: nat, den: nat)

  ghost predicate Proper(r: Ratio) {
    r.den > 0
  }

  ghost function ValueOf(r: Ratio): real
    requires Proper(r)
  {
    r.num as real / r.den as real
  }

  lemma DivisionSteps(num: nat, den: nat)
    requires den > 0
    ensures num / den * den + num % den == num && (num / den + 1) * den == num / den * den + den
  {
  }

  /** The whole number nearest to the quotient, an exact tie going to the even one. */
  function RoundHalfEven(num: nat, den: nat): (m: nat)
    requires den > 0
    ensures 2 * num <= 2 * (m * den) + den && 2 * (m * den) <= 2 * num + den
  {
    var q, r := num / den, num % den;
    DivisionSteps(num, den);
    if 2 * r < den then q
    else if 2 * r > den then q + 1
    else if q % 2 == 0 then q
    else q + 1
  }

  /** The double nearest to `num / den`: scaled by two until its mantissa has 53 bits, then rounded. */
  function Nearest(num: nat, den: nat): (r: Ratio)
    requires den > 0
    ensures Proper(r)
    decreases if num >= MANTISSA_LIMIT * den then num - MANTISSA_LIMIT * den + 1 else 0,
              if 2 * num < MANTISSA_LIMIT * den then MANTISSA_LIMIT * den - 2 * num else 0
  {
    if num == 0 then Ratio(0, 1)
    else if num >= MANTISSA_LIMIT * den then
      var r := Nearest(num, 2 * den);
      Ratio(2 * r.num, r.den)
    else if 2 * num < MANTISSA_LIMIT * den then
      var r := Nearest(2 * num, den);
      Ratio(r.num, 2 * r.den)
    else Ratio(RoundHalfEven(num, den), 1)
  }

  function Pow2(k: nat): (p: nat)
    ensures p > 0
  {
    if k == 0 then 1 else 2 * Pow2(k - 1)
  }

  lemma FourMore(k: nat)
    ensures Pow2(k + 4) == 16 * Pow2(k)
  {
    assert Pow2(k + 4) == 2 * Pow2(k + 3) && Pow2(k + 3) == 2 * Pow2(k + 2);
    assert Pow2(k + 2) == 2 * Pow2(k + 1);
  }

  lemma LargePowers()
    ensures Pow2(47) == 0x8000_0000_0000 && Pow2(49) == 0x2_0000_0000_0000 && Pow2(50) == 0x4_0000_0000_0000
    ensures Pow2(52) == 0x10_0000_0000_0000 && Pow2(53) == 0x20_0000_0000_0000
    ensures Pow2(54) == 0x40_0000_0000_0000 && Pow2(55) == 0x80_0000_0000_0000
  {
    SixteenMore(0);
    SixteenMore(16);
    SixteenMore(32);
    assert Pow2(48) == 2 * Pow2(47) && Pow2(49) == 2 * Pow2(48) && Pow2(50) == 2 * Pow2(49);
    assert Pow2(51) == 2 * Pow2(50) && Pow2(52) == 2 * Pow2(51) && Pow2(53) == 2 * Pow2(52);
    assert Pow2(54) == 2 * Pow2(53) && Pow2(55) == 2 * Pow2(54);
  }

  lemma SixteenMore(k: nat)
    ensures Pow2(k + 16) == 0x1_0000 * Pow2(k)
  {
    FourMore(k);
    FourMore(k + 4);
    FourMore(k + 8);
    FourMore(k + 12);
  }

  lemma ScaleStep(num: nat, den: nat, p: nat)
    requires num > 0 && den > 0 && p > 0 && num * (2 * p) < MANTISSA_LIMIT * den
    ensures num < MANTISSA_LIMIT * den && 2 * num < MANTISSA_LIMIT * den
    ensures num * (2 * p) == 2 * num * p
  {
    MulMonotone(1, p, 2 * num);
  }

  /** A quotient below 2^53 is scaled up by the power of two that gives its mantissa 53 bits. */
  lemma {:induction false} NearestScaled(num: nat, den: nat, k: nat)
    requires num > 0 && den > 0 && num * Pow2(k) < MANTISSA_LIMIT * den <= 2 * (num * Pow2(k))
    ensures Nearest(num, den) == Ratio(RoundHalfEven(num * Pow2(k), den), Pow2(k))
    decreases k
  {
    hide RoundHalfEven;
    if k > 0 {
      ScaleStep(num, den, Pow2(k - 1));
      NearestScaled(2 * num, den, k - 1);
    }
  }

  lemma WholeStepBelow(a: nat, b: nat, den: nat)
    requires a < b
    ensures a * den + den <= b * den
  {
    MulMonotone(a + 1, b, den);
    assert (a + 1) * den == a * den + den;
  }

  lemma HalfToEven(num: nat, den: nat, m: nat)
    requires den > 0 && m % 2 == 0 && 2 * num <= 2 * (m * den) + den && 2 * (m * den) <= 2 * num + den
    ensures RoundHalfEven(num, den) == m
  {
    var q, rest := num / den, num % den;
    DivisionSteps(num, den);
    NotFarOff(num, den, q, m);
    OneOfTwo(num, den, q, rest, m);
  }

  /** The remainder tells which of the two it is. */
  lemma OneOfTwo(num: nat, den: nat, q: nat, rest: nat, m: nat)
    requires num == q * den + rest && (q + 1) * den == q * den + den && (m == q || m == q + 1)
    requires 2 * num <= 2 * (m * den) + den && 2 * (m * den) <= 2 * num + den
    ensures if m == q then 2 * rest <= den else den <= 2 * rest
  {
  }

  lemma NotFarOff(num: nat, den: nat, q: nat, m: nat)
    requires den > 0 && q * den <= num < q * den + den
    requires 2 * num <= 2 * (m * den) + den && 2 * (m * den) <= 2 * num + den
    ensures m == q || m == q + 1
  {
    if m < q {
      WholeStepBelow(m, q, den);
    } else if q + 1 < m {
      WholeStepBelow(q, q + 1, den);
      WholeStepBelow(q + 1, m, den);
    }
  }

  /** The same for a mantissa found by hand, unless the quotient lies half way between two. */
  lemma NearestIs(num: nat, den: nat, k: nat, p: nat, m: nat)
    requires num > 0 && den > 0 && p == Pow2(k) && num * p < MANTISSA_LIMIT * den <= 2 * (num * p)
    requires 2 * (m * den) < 2 * (num * p) + den && 2 * (num * p) < 2 * (m * den) + den
    ensures Nearest(num, den) == Ratio(m, p)
  {
    hide Nearest, RoundHalfEven, Pow2;
    NearestScaled(num, den, k);
    RoundedTo(num * p, den, m);
  }

  lemma RoundedTo(num: nat, den: nat, m: nat)
    requires den > 0 && 2 * (m * den) < 2 * num + den && 2 * num < 2 * (m * den) + den
    ensures RoundHalfEven(num, den) == m
  {
    var r := RoundHalfEven(num, den);
    hide RoundHalfEven;
    if r < m {
      WholeStepBelow(r, m, den);
    } else if m < r {
      WholeStepBelow(m, r, den);
    }
  }

  // ---------- how far off ----------

  /** One rounding is off by at most one part in 2^53. */
  ghost predicate OffByLittle(r: Ratio, num: nat, den: nat) {
    var got, exact := r.num * den, num * r.den;
    exact * (MANTISSA_LIMIT - 1) <= got * MANTISSA_LIMIT <= exact * (MANTISSA_LIMIT + 1)
  }

  lemma RoundedOff(num: nat, den: nat)
    requires den > 0 && MANTISSA_LIMIT * den <= 2 * num
    ensures OffByLittle(Ratio(RoundHalfEven(num, den), 1), num, den)
  {
    var got := RoundHalfEven(num, den) * den;
    hide RoundHalfEven;
  }

  lemma OffAlike(r: Ratio, num: nat, den: nat)
    ensures OffByLittle(r, num, 2 * den) ==> OffByLittle(Ratio(2 * r.num, r.den), num, den)
    ensures OffByLittle(r, 2 * num, den) ==> OffByLittle(Ratio(r.num, 2 * r.den), num, den)
  {
    assert r.num * (2 * den) == 2 * r.num * den;
    assert 2 * num * r.den == num * (2 * r.den);
  }

  lemma {:induction false} NearestError(num: nat, den: nat)
    requires den > 0
    ensures OffByLittle(Nearest(num, den), num, den)
    decreases if num >= MANTISSA_LIMIT * den then num - MANTISSA_LIMIT * den + 1 else 0,
              if 2 * num < MANTISSA_LIMIT * den then MANTISSA_LIMIT * den - 2 * num else 0
  {
    hide OffByLittle, RoundHalfEven;
    if num == 0 {
      ZeroExact(den);
    } else if num >= MANTISSA_LIMIT * den {
      NearestError(num, 2 * den);
      OffAlike(Nearest(num, 2 * den), num, den);
    } else if 2 * num < MANTISSA_LIMIT * den {
      NearestError(2 * num, den);
      OffAlike(Nearest(2 * num, den), num, den);
    } else {
      RoundedOff(num, den);
    }
  }

  lemma ZeroExact(den: nat)
    ensures OffByLittle(Ratio(0, 1), 0, den)
  {
  }

  // ---------- chains of operations ----------

  /** `v` misses `x` by at most `c` parts in 2^53. */
  ghost predicate Within(v: real, x: real, c: real) {
    -(x * c) <= (v - x) * MANTISSA_LIMIT as real <= x * c
  }

  lemma NearestWithin(num: nat, den: nat)
    requires den > 0
    ensures Within(ValueOf(Nearest(num, den)), num as real / den as real, 1.0)
  {
    hide Nearest, OffByLittle;
    NearestError(num, den);
    var r, l := Nearest(num, den), MANTISSA_LIMIT as real;
    LittleInReals(r, num, den);
    var a, b, c, d := r.num as real, r.den as real, num as real, den as real;
    QuotientsClose(a, b, c, d, l);
    WithinOne(a / b, c / d);
  }

  lemma NearestWithinOf(num: nat, den: nat, x: real)
    requires den > 0 && x == num as real / den as real
    ensures Within(ValueOf(Nearest(num, den)), x, 1.0)
  {
    NearestWithin(num, den);
  }

  lemma WithinOne(v: real, x: real)
    requires -x <= (v - x) * MANTISSA_LIMIT as real <= x
    ensures Within(v, x, 1.0)
  {
  }

  lemma RealProduct(a: int, b: int)
    ensures (a * b) as real == a as real * b as real
  {
  }

  lemma LittleInReals(r: Ratio, num: nat, den: nat)
    requires OffByLittle(r, num, den)
    ensures var got, exact := r.num as real * den as real, num as real * r.den as real;
            var l := MANTISSA_LIMIT as real;
            exact * (l - 1.0) <= got * l <= exact * (l + 1.0)
  {
    RealProduct(r.num, den);
    RealProduct(num, r.den);
    var got, exact := r.num * den, num * r.den;
    RealProduct(got, MANTISSA_LIMIT);
    RealProduct(exact, MANTISSA_LIMIT - 1);
    RealProduct(exact, MANTISSA_LIMIT + 1);
  }

  lemma QuotientsClose(a: real, b: real, c: real, d: real, l: real)
    requires b > 0.0 && d > 0.0
    requires c * b * (l - 1.0) <= a * d * l <= c * b * (l + 1.0)
    ensures -(c / d) <= (a / b - c / d) * l <= c / d
  {
    var v, x := a / b, c / d;
    assert a == v * b && c == x * d;
    assert a * d == v * (b * d) && c * b == x * (b * d);
    assert b * d > 0.0;
    Cancel(x * (l - 1.0), v * l, b * d);
    Cancel(v * l, x * (l + 1.0), b * d);
  }

  lemma Cancel(p: real, q: real, m: real)
    requires m > 0.0 && p * m <= q * m
    ensures p <= q
  {
  }

  /** A double times a whole number that is itself a double. */
  function Times(r: Ratio, n: nat): (p: Ratio)
    requires Proper(r)
    ensures Proper(p)
  {
    Nearest(r.num * n, r.den)
  }

  lemma TimesWithin(r: Ratio, n: nat, x: real, c: real, product: real, d: real)
    requires Proper(r) && x >= 0.0 && 0.0 <= c <= 8.0 && Within(ValueOf(r), x, c)
    requires product == x * n as real && d == c + 2.0
    ensures Within(ValueOf(Times(r, n)), product, d)
  {
    hide Nearest, Within, ValueOf;
    var v, u, whole := ValueOf(r), ValueOf(Times(r, n)), n as real;
    var exact := v * whole;
    ScaledRatio(r, n);
    NearestWithinOf(r.num * n, r.den, exact);
    assert Within(u, exact, 1.0);
    ScaleWithin(v, x, c, whole, exact, product);
    ComposeWithin(u, exact, product, c, d);
  }

  lemma ScaledRatio(r: Ratio, n: nat)
    requires Proper(r)
    ensures ValueOf(r) * n as real == (r.num * n) as real / r.den as real
  {
    RealProduct(r.num, n);
    ProductOfQuotient(r.num as real, n as real, r.den as real);
  }

  lemma ProductOfQuotient(a: real, b: real, d: real)
    requires d > 0.0
    ensures a * b / d == a / d * b
  {
  }

  lemma ScaleWithin(v: real, x: real, c: real, n: real, scaledV: real, scaledX: real)
    requires n >= 0.0 && Within(v, x, c) && scaledV == v * n && scaledX == x * n
    ensures Within(scaledV, scaledX, c)
  {
    var l := MANTISSA_LIMIT as real;
    ScaleReal(-(x * c), (v - x) * l, n);
    ScaleReal((v - x) * l, x * c, n);
    assert (scaledV - scaledX) * l == (v - x) * l * n && scaledX * c == x * c * n;
  }

  lemma ScaleReal(p: real, q: real, n: real)
    requires n >= 0.0 && p <= q
    ensures p * n <= q * n
  {
  }

  lemma ComposeWithin(u: real, v: real, x: real, c: real, d: real)
    requires Within(u, v, 1.0) && Within(v, x, c) && x >= 0.0 && 0.0 <= c <= 8.0 && d == c + 2.0
    ensures Within(u, x, d)
  {
    var l := MANTISSA_LIMIT as real;
    assert x * c <= x * 8.0 by { ScaleReal(c, 8.0, x); }
    assert x * 8.0 <= x * l by { ScaleReal(8.0, l, x); }
    assert v * l <= 2.0 * x * l && (u - v) * l <= v;
    assert v <= 2.0 * x;
    assert v - x <= x && x * d == x * c + 2.0 * x;
  }

  // ---------- whole numbers out of doubles ----------

  function FloorOf(r: Ratio): nat
    requires Proper(r)
  {
    r.num / r.den
  }

  lemma FloorBounds(num: nat, den: nat)
    requires den > 0
    ensures (num / den) as real <= num as real / den as real < (num / den) as real + 1.0
  {
    var q := num / den;
    assert q * den <= num < q * den + den;
    RealProduct(q, den);
    var x, d := num as real / den as real, den as real;
    assert num as real == x * d;
    Cancel(q as real, x, d);
    if x >= q as real + 1.0 {
      ScaleReal(q as real + 1.0, x, d);
    }
  }

  lemma ScaledError(v: real, x: real, d: real, n: real, l: real, c: real)
    requires d >= 0.0 && x * d == n && -(x * c) <= (v - x) * l <= x * c
    ensures -(n * c) <= (v * d - n) * l <= n * c
  {
    var low, mid, high := -(x * c), (v - x) * l, x * c;
    ScaleReal(low, mid, d);
    ScaleReal(mid, high, d);
    assert high * d == n * c by {
      assert x * c * d == x * d * c;
    }
    assert mid * d == (v * d - n) * l by {
      assert (v - x) * l * d == (v * d - x * d) * l;
    }
  }

  lemma SmallError(e: real, l: real, m: real)
    requires l > 0.0 && -m <= e * l <= m < l
    ensures -1.0 < e < 1.0
  {
    if e >= 1.0 {
      ScaleReal(1.0, e, l);
    } else if e <= -1.0 {
      ScaleReal(e, -1.0, l);
    }
  }

  /** A rounding error this small cannot reach the next multiple of one part in `den`. */
  lemma LessThanOneStep(v: real, num: nat, den: nat, c: nat)
    requires den > 0 && num * c < MANTISSA_LIMIT && Within(v, num as real / den as real, c as real)
    ensures num as real - 1.0 < v * den as real < num as real + 1.0
  {
    var x, d, l, n, m := num as real / den as real, den as real, MANTISSA_LIMIT as real, num as real, c as real;
    assert x * d == n;
    ScaledError(v, x, d, n, l, m);
    RealProduct(num, c);
    SmallError(v * d - n, l, n * m);
  }

  lemma BelowNext(v: real, num: nat, q: nat, den: nat)
    requires den > 0 && num < q * den + den && v * den as real < num as real + 1.0
    ensures v < q as real + 1.0
  {
    if v >= q as real + 1.0 {
      ScaleReal(q as real + 1.0, v, den as real);
      RealProduct(q, den);
    }
  }

  lemma AbovePrevious(v: real, num: nat, q: nat, den: nat)
    requires den > 0 && q * den <= num && num as real - 1.0 < v * den as real
    ensures v > q as real - 1.0
    ensures q * den < num ==> v > q as real
  {
    RealProduct(q, den);
    if v <= q as real - 1.0 {
      ScaleReal(v, q as real - 1.0, den as real);
    } else if q * den < num && v <= q as real {
      ScaleReal(v, q as real, den as real);
    }
  }

  /** `floor`: it can only miss an exact whole number, and then by one. */
  lemma FloorNear(r: Ratio, num: nat, den: nat, c: nat)
    requires Proper(r) && den > 0 && Within(ValueOf(r), num as real / den as real, c as real)
    requires num * c < MANTISSA_LIMIT
    ensures num / den - 1 <= FloorOf(r) <= num / den
    ensures num % den != 0 ==> FloorOf(r) == num / den
  {
    var v, q := ValueOf(r), num / den;
    assert num == q * den + num % den;
    LessThanOneStep(v, num, den, c);
    hide Within;
    BelowNext(v, num, q, den);
    AbovePrevious(v, num, q, den);
    FloorBounds(r.num, r.den);
  }

  /** `round`: the nearest whole number, exact ties going up. */
  function RoundOf(r: Ratio): nat
    requires Proper(r)
  {
    (2 * r.num + r.den) / (2 * r.den)
  }

  lemma RoundBounds(r: Ratio)
    requires Proper(r)
    ensures RoundOf(r) as real - 0.5 <= ValueOf(r) < RoundOf(r) as real + 0.5
  {
    FloorBounds(2 * r.num + r.den, 2 * r.den);
    HalfMore(r.num as real, r.den as real);
    assert (2 * r.num + r.den) as real == 2.0 * r.num as real + r.den as real;
    assert (2 * r.den) as real == 2.0 * r.den as real;
  }

  lemma HalfMore(a: real, d: real)
    requires d > 0.0
    ensures (2.0 * a + d) / (2.0 * d) == a / d + 0.5
  {
    var x := a / d;
    assert a == x * d;
    QuotientOfProduct(2.0 * a + d, x + 0.5, 2.0 * d);
  }

  lemma QuotientOfProduct(p: real, q: real, m: real)
    requires m > 0.0 && p == q * m
    ensures p / m == q
  {
  }

  /** `round` of hundredths: the result is a nearest whole number, whichever way a tie goes. */
  lemma RoundNear(r: Ratio, num: nat, c: nat)
    requires Proper(r) && Within(ValueOf(r), num as real / 100.0, c as real)
    requires num * c < MANTISSA_LIMIT
    ensures -50 <= 100 * RoundOf(r) - num <= 50
  {
    LessThanOneStep(ValueOf(r), num, 100, c);
    hide Within;
    RoundBounds(r);
  }
}
