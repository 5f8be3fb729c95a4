/**
 The share of a node as the code computes it, in doubles: at most one below the exact share, and
 where that shows.
 */
module RingRounding {
  import opened Doubles
  import opened HashRing
  import opened RingDisruption
  import opened RingSize

  /** The weight over the total, times 40, times the number of nodes, each step rounded to a double. */
  function ShareRatio(weight: nat, total: nat, n: nat): (r: Ratio)
    requires total > 0
    ensures Proper(r)
  {
    Times(Times(Nearest(weight, total), DEFAULT_VNODES), n)
  }

  /** The floor of it. Without a positive total the original converts an infinity or NaN. */
  function DoubleShare(): Share {
    (weight: int, total: int, n: int) =>
      if total <= 0 || n < 0 then 0
      else if weight >= 0 then FloorOf(ShareRatio(weight, total, n))
      else
        var r := ShareRatio(-weight, total, n);
        -(r.num as int) / r.den
  }

  /** A negative weight gives the negative of the same double, rounded down as well. */
  lemma NegativeShare(weight: int, total: nat, n: nat)
    requires total > 0 && weight < 0
    ensures var r, got := ShareRatio(-weight, total, n), DoubleShare()(weight, total, n);
            got * r.den <= -(r.num as int) < (got + 1) * r.den
  {
    hide ShareRatio;
    var r := ShareRatio(-weight, total, n);
    var got := -(r.num as int) / r.den;
    assert (got + 1) * r.den == got * r.den + r.den;
  }

  lemma ShareRatioWithin(weight: nat, total: nat, n: nat)
    requires total > 0
    ensures Within(ValueOf(ShareRatio(weight, total, n)), (DEFAULT_VNODES * n * weight) as real / total as real, 5.0)
  {
    hide Within, Nearest, Times;
    var x := weight as real / total as real;
    var first := Nearest(weight, total);
    NearestWithin(weight, total);
    TimesWithin(first, DEFAULT_VNODES, x, 1.0, x * DEFAULT_VNODES as real, 3.0);
    ExactChain(weight, total, n);
    var exact := (DEFAULT_VNODES * n * weight) as real / total as real;
    TimesWithin(Times(first, DEFAULT_VNODES), n, x * DEFAULT_VNODES as real, 3.0, exact, 5.0);
  }

  lemma ExactChain(weight: nat, total: nat, n: nat)
    requires total > 0
    ensures weight as real / total as real * DEFAULT_VNODES as real * n as real
         == (DEFAULT_VNODES * n * weight) as real / total as real
  {
    var x, d := weight as real / total as real, total as real;
    assert weight as real == x * d;
    RealProduct(DEFAULT_VNODES * n, weight);
    RealProduct(DEFAULT_VNODES, n);
    assert (DEFAULT_VNODES * n * weight) as real == x * DEFAULT_VNODES as real * n as real * d;
    QuotientOfProduct((DEFAULT_VNODES * n * weight) as real, x * DEFAULT_VNODES as real * n as real, d);
  }

  /** In doubles a share is the exact one, or one less where the exact quotient is a whole number. */
  lemma DoubleShareNear(weight: nat, total: nat, n: nat)
    requires total > 0 && 200 * n * weight < MANTISSA_LIMIT
    ensures var exact, got := ExactShare(weight, total, n), DoubleShare()(weight, total, n);
            && exact - 1 <= got <= exact
            && (DEFAULT_VNODES * n * weight % total != 0 ==> got == exact)
  {
    hide Within, Nearest, Times;
    ShareRatioWithin(weight, total, n);
    FloorNear(ShareRatio(weight, total, n), DEFAULT_VNODES * n * weight, total, 5);
  }

  lemma DoubleSharesWithin(nodes: map<string, Node>)
    requires TotalWeight(nodes) > 0
    requires forall s :: s in nodes ==> nodes[s].weight >= 0 && 200 * |nodes| * nodes[s].weight < MANTISSA_LIMIT
    ensures SharesWithin(DoubleShare(), nodes, 1)
  {
    hide DoubleShare, TotalWeight;
    forall s | s in nodes
      ensures var exact := ExactShare(nodes[s].weight, TotalWeight(nodes), |nodes|);
              exact - 1 <= DoubleShare()(nodes[s].weight, TotalWeight(nodes), |nodes|) <= exact
    {
      DoubleShareNear(nodes[s].weight, TotalWeight(nodes), |nodes|);
    }
  }

  /** So the ring the code builds has points, and for default virtual nodes about 160 for each node. */
  lemma CodeRingSize(md4: Md4, nodes: map<string, Node>, ring: seq<RingElement>)
    requires nodes != map[] && IsRing(md4, DoubleShare(), nodes, ring)
    requires forall s :: s in nodes ==>
               nodes[s].vnodes >= 0 && nodes[s].weight > 0 && 200 * |nodes| * nodes[s].weight < MANTISSA_LIMIT
    ensures ring != []
    ensures (forall s :: s in nodes ==> DefaultVnodes(nodes[s])) ==> 4 * (38 * |nodes| + 1) <= |ring| <= 160 * |nodes|
  {
    hide DoubleShare, IsRing, SharesWithin;
    PositiveTotal(nodes);
    DoubleSharesWithin(nodes);
    RingNotEmpty(md4, DoubleShare(), nodes, ring);
    if forall s :: s in nodes ==> DefaultVnodes(nodes[s]) {
      DefaultRingLength(md4, DoubleShare(), nodes, ring, 1);
    }
  }

  // ---------- six equal nodes and a seventh ----------

  lemma Sixth()
    ensures ShareRatio(1, 6, 6) == Ratio(5629499534213120, 0x8000_0000_0000)
  {
    hide Nearest, RoundHalfEven;
    LargePowers();
    var p47, p50, p55 := Pow2(47), Pow2(50), Pow2(55);
    hide Pow2;
    NearestIs(1, 6, 55, p55, 6004799503160661);
    NearestIs(6004799503160661 * DEFAULT_VNODES, p55, 50, p50, 7505999378950826);
    NearestScaled(7505999378950826 * 6, p50, 47);
    HalfToEven(7505999378950826 * 6 * p47, p50, 5629499534213120);
  }

  lemma Seventh()
    ensures ShareRatio(1, 7, 7) == Ratio(5629499534213119, 0x8000_0000_0000)
  {
    hide Nearest, RoundHalfEven;
    LargePowers();
    var p47, p50, p55 := Pow2(47), Pow2(50), Pow2(55);
    hide Pow2;
    NearestIs(1, 7, 55, p55, 5146971002709138);
    NearestScaled(5146971002709138 * DEFAULT_VNODES, p55, 50);
    HalfToEven(5146971002709138 * DEFAULT_VNODES * p50, p55, 6433713753386422);
    NearestIs(6433713753386422 * 7, p50, 47, p47, 5629499534213119);
  }

  /** A sixth of six nodes' 240 comes out as 40, a seventh of seven nodes' 280 just below it. */
  lemma SixthAndSeventh()
    ensures DoubleShare()(1, 6, 6) == 40 && DoubleShare()(1, 7, 7) == 39
  {
    Sixth();
    Seventh();
    hide ShareRatio;
  }

  /**
   So six nodes of weight 1 with default virtual nodes have 40 of them each, and 39 each once a
   seventh joins; for some digest without collisions keys then move between the first six.
   */
  lemma SixToSevenDisrupts(before: map<string, Node>, s: string, node: Node, after: map<string, Node>)
      returns (md4: Md4)
    requires |before| == 6 && s !in before && after == before[s := node]
    requires forall t :: t in after ==> after[t].weight == 1 && DefaultVnodes(after[t])
    requires forall t :: t in after ==> '\0' !in t && |t| <= 1000
    ensures DisruptedBy(md4, DoubleShare(), before, after)
  {
    hide DoubleShare, CanDisrupt, DisruptedBy, LabelsFit;
    var share := DoubleShare();
    SixthAndSeventh();
    assert forall t :: t in before ==> after[t] == before[t];
    assert |after| == 7;
    EqualTotal(before, 1);
    EqualTotal(after, 1);
    EqualWeightsDisruptIffShareChanges(share, before, s, node, after, 1);
    forall t | t in after
      ensures LabelsFit(share, after, t) && (t in before ==> LabelsFit(share, before, t))
    {
      assert Count(share, after, t) == 39 && (t in before ==> Count(share, before, t) == 40);
      ShortLabelsFit(share, after, t);
      if t in before {
        ShortLabelsFit(share, before, t);
      }
    }
    DisruptionIffHandOver(share, before, s, node, after);
    md4 :| DisruptedBy(md4, share, before, after);
  }
}
