/**
 The number of samples a percentile covers as the code computes it, in doubles: a nearest whole
 number, though exact halves can come out either way.
 */
module PercentileRounding {
  import opened Arithmetic
  import opened Doubles
  import opened TimerStatistics

  /** More samples than this do not fit in memory. */
  const SAMPLE_LIMIT: nat := 0x100_0000_0000

  /** The exact quotient rounded to the nearest whole number, halves up. */
  function HalfUp(p: nat, n: nat): nat {
    (p * n + 50) / 100
  }

  /** The percentage over 100, times the number of samples, each rounded to a double, and rounded. */
  function DoubleThreshold(): Threshold {
    (p: nat, n: nat) => if n < SAMPLE_LIMIT then RoundOf(Times(Nearest(p, 100), n)) else HalfUp(p, n)
  }

  lemma DoubleRank(p: nat, n: nat)
    requires p <= 100 && n < SAMPLE_LIMIT
    ensures -50 <= 100 * RoundOf(Times(Nearest(p, 100), n)) - p * n <= 50
  {
    hide Nearest, Times, Within, RoundOf;
    NearestWithin(p, 100);
    var x, exact := p as real / 100.0, (p * n) as real / 100.0;
    ExactProduct(p, n);
    TimesWithin(Nearest(p, 100), n, x, 1.0, exact, 3.0);
    FewEnough(p, n);
    RoundNear(Times(Nearest(p, 100), n), p * n, 3);
  }

  lemma ExactProduct(p: nat, n: nat)
    ensures (p * n) as real / 100.0 == p as real / 100.0 * n as real
  {
    RealProduct(p, n);
  }

  lemma FewEnough(p: nat, n: nat)
    requires p <= 100 && n < SAMPLE_LIMIT
    ensures p * n * 3 < MANTISSA_LIMIT
  {
    MulMonotone(p, 100, n);
  }

  lemma DoubleThresholdNearest()
    ensures NearestRank(DoubleThreshold())
  {
    forall p: nat, n: nat | p <= 100
      ensures -50 <= 100 * DoubleThreshold()(p, n) - p * n <= 50
    {
      if n < SAMPLE_LIMIT {
        DoubleRank(p, n);
      }
    }
  }

  /** An exact half that is rounded down: 29 percent of 50 samples. */
  lemma HalfGoesDown()
    ensures DoubleThreshold()(29, 50) == HalfUp(29, 50) - 1
  {
    hide Nearest, RoundHalfEven;
    LargePowers();
    var p49, p54 := Pow2(49), Pow2(54);
    hide Pow2;
    NearestIs(29, 100, 54, p54, 5224175567749775);
    NearestIs(5224175567749775 * 50, p54, 49, p49, 8162774324609023);
  }

  /** One that is rounded up: half of 3. */
  lemma HalfGoesUp()
    ensures DoubleThreshold()(50, 3) == HalfUp(50, 3)
  {
    hide Nearest, RoundHalfEven;
    LargePowers();
    var p52, p53 := Pow2(52), Pow2(53);
    hide Pow2;
    NearestIs(50, 100, 53, p53, 4503599627370496);
    NearestIs(4503599627370496 * 3, p53, 52, p52, 6755399441055744);
  }

  lemma HalfBounds(a: nat, b: nat)
    ensures -49 <= 100 * HalfUp(a, b) - a * b <= 50
    ensures a * b % 100 == 50 ==> 100 * HalfUp(a, b) - a * b == 50
  {
    var m := a * b;
  }

  /** Halves down instead. */
  function HalfDown(): Threshold {
    (a: nat, b: nat) => (a * b + 49) / 100
  }

  lemma HalfDownNearest()
    ensures NearestRank(HalfDown())
  {
    forall a: nat, b: nat | a <= 100
      ensures -50 <= 100 * HalfDown()(a, b) - a * b <= 50
    {
      var m := a * b;
    }
  }

  /** Only exact halves leave a choice: elsewhere every nearest whole number is the one rounded half up. */
  lemma RankDecidedIffNoHalf(p: nat, n: nat)
    requires p <= 100
    ensures (forall t: Threshold :: NearestRank(t) ==> t(p, n) == HalfUp(p, n)) <==> p * n % 100 != 50
  {
    HalfBounds(p, n);
    HalfDownNearest();
    var m := p * n;
    assert m % 100 == 50 ==> HalfDown()(p, n) != HalfUp(p, n);
    hide HalfDown, HalfUp;
    forall t: Threshold | NearestRank(t) && m % 100 != 50
      ensures t(p, n) == HalfUp(p, n)
    {
      assert -50 <= 100 * t(p, n) - m <= 50;
    }
  }
}
