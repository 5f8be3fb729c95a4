/**
 How many points the ring has: the rounding of the shares never loses a whole node's worth, and no
 reasonable configuration gives an empty ring.
 */
module RingSize {
  import opened Arithmetic
  import opened Collections
  import opened HashRing

  ghost function Counts(share: Share, nodes: map<string, Node>): string -> int
  {
    shard => Count(share, nodes, shard)
  }

  lemma {:induction false} ElementsOf(md4: Md4, share: Share, nodes: map<string, Node>, shards: set<string>)
      returns (elements: seq<RingElement>)
    ensures |elements| == REPLICAS * Sum(shards, Counts(share, nodes))
    ensures forall e :: multiset(elements)[e] == if e.shard in shards then Multiplicity(md4, share, nodes, e) else 0
    decreases shards
  {
    if shards == {} {
      elements := [];
    } else {
      var s :| s in shards;
      var rest := ElementsOf(md4, share, nodes, shards - {s});
      var mine := Tag(s, ShardPoints(md4, share, nodes, s));
      SumRemove(shards, s, Counts(share, nodes));
      elements := rest + mine;
      forall e
        ensures multiset(elements)[e] == if e.shard in shards then Multiplicity(md4, share, nodes, e) else 0
      {
        TagMultiset(s, ShardPoints(md4, share, nodes, s), e);
      }
    }
  }

  /** Four points for each virtual node, and no others. */
  lemma RingLength(md4: Md4, share: Share, nodes: map<string, Node>, ring: seq<RingElement>)
    requires IsRing(md4, share, nodes, ring)
    ensures |ring| == REPLICAS * Sum(nodes.Keys, Counts(share, nodes))
  {
    var elements := ElementsOf(md4, share, nodes, nodes.Keys);
    forall e
      ensures multiset(ring)[e] == multiset(elements)[e]
    {
      if e.shard !in nodes {
        assert VnodeCount(share, nodes, e.shard) == 0;
      }
    }
    assert multiset(ring) == multiset(elements);
    assert |multiset(ring)| == |ring| && |multiset(elements)| == |elements|;
  }

  function OfShard(shard: string): RingElement -> bool {
    (e: RingElement) => e.shard == shard
  }

  lemma {:induction false} FilterMultiplicity<T>(xs: seq<T>, p: T -> bool, x: T)
    ensures multiset(Filter(xs, p))[x] == if p(x) then multiset(xs)[x] else 0
  {
    if xs != [] {
      var front, last := xs[..|xs| - 1], xs[|xs| - 1];
      FilterMultiplicity(front, p, x);
      assert xs == front + [last];
    }
  }

  /**
   How many points a configured shard has: four for each of its own virtual nodes, if it has a number
   of them other than 40, and otherwise for each one its share comes to.
   */
  lemma ShardLength(md4: Md4, share: Share, nodes: map<string, Node>, ring: seq<RingElement>, s: string)
    requires IsRing(md4, share, nodes, ring) && s in nodes
    ensures var node, total := nodes[s], Sum(nodes.Keys, t => if t in nodes then nodes[t].weight else 0);
            var count := if node.vnodes != 0 && node.vnodes != 40 then node.vnodes
                         else share(node.weight, total, |nodes|);
            |Filter(ring, OfShard(s))| == if count < 0 then 0 else 4 * count
  {
    var points := ShardPoints(md4, share, nodes, s);
    var mine, elements := Filter(ring, OfShard(s)), Tag(s, points);
    hide Filter, PointsOf;
    forall e
      ensures multiset(mine)[e] == multiset(elements)[e]
    {
      FilterMultiplicity(ring, OfShard(s), e);
      TagMultiset(s, points, e);
    }
    assert multiset(mine) == multiset(elements);
    assert |mine| == |multiset(mine)| == |multiset(elements)| == |elements|;
    SumSame(nodes.Keys, t => if t in nodes then nodes[t].weight else 0, WeightOf(nodes));
  }

  // ---------- shares that are not far from the exact ones ----------

  /** The exact share of a weight, rounded down. */
  function ExactShare(weight: int, total: int, n: nat): int
    requires total > 0
  {
    DEFAULT_VNODES * n * weight / total
  }

  /** Every default share is at most `slack` below the exact one, and never above. */
  ghost predicate SharesWithin(share: Share, nodes: map<string, Node>, slack: nat) {
    && TotalWeight(nodes) > 0
    && forall s :: s in nodes && DefaultVnodes(nodes[s]) ==>
         var exact := ExactShare(nodes[s].weight, TotalWeight(nodes), |nodes|);
         exact - slack <= share(nodes[s].weight, TotalWeight(nodes), |nodes|) <= exact
  }

  lemma ShareBounds(share: Share, nodes: map<string, Node>, slack: nat, s: string)
    requires SharesWithin(share, nodes, slack)
    requires s in nodes && DefaultVnodes(nodes[s]) && nodes[s].weight > 0
    ensures var total, count := TotalWeight(nodes), Counts(share, nodes)(s);
            total * count <= DEFAULT_VNODES * |nodes| * nodes[s].weight <= total * count + total * slack + (total - 1)
  {
    var total, count := TotalWeight(nodes), Counts(share, nodes)(s);
    var exact := DEFAULT_VNODES * |nodes| * nodes[s].weight;
    MulPositive(DEFAULT_VNODES * |nodes|, nodes[s].weight);
    var q := exact / total;
    assert q == ExactShare(nodes[s].weight, total, |nodes|) && 0 <= q;
    assert q - slack <= count <= q;
    hide Counts, SharesWithin, TotalWeight;
    assert total * q <= exact <= total * q + (total - 1);
    MulMonotone(count, q, total);
    MulMonotone(q, count + slack, total);
    assert (count + slack) * total == total * count + total * slack;
  }

  lemma SharesLargeEnough(total: int, shares: int, n: int, slack: nat)
    requires total > 0 && n > 0
    requires DEFAULT_VNODES * n * total <= total * shares + (total * slack + (total - 1)) * n
    ensures (DEFAULT_VNODES - 1 - slack) * n + 1 <= shares
  {
    var most := (DEFAULT_VNODES - 1 - slack) * n;
    assert most * total + (total * slack + (total - 1)) * n == DEFAULT_VNODES * n * total - n;
    if shares <= most {
      MulMonotone(shares, most, total);
    }
  }

  lemma SharesSmallEnough(total: int, shares: int, n: int)
    requires total > 0
    requires total * shares <= DEFAULT_VNODES * n * total
    ensures shares <= DEFAULT_VNODES * n
  {
    if shares > DEFAULT_VNODES * n {
      MulMonotone(DEFAULT_VNODES * n + 1, shares, total);
    }
  }

  /**
   With default virtual nodes throughout, rounding down costs less than one per node, and shares
   that are one too low cost one more.
   */
  lemma DefaultShares(share: Share, nodes: map<string, Node>, slack: nat)
    requires nodes != map[] && SharesWithin(share, nodes, slack)
    requires forall s :: s in nodes ==> DefaultVnodes(nodes[s]) && nodes[s].weight > 0
    ensures (39 - slack) * |nodes| + 1 <= Sum(nodes.Keys, Counts(share, nodes)) <= 40 * |nodes|
  {
    hide Sum;
    var keys, n, total := nodes.Keys, |nodes|, TotalWeight(nodes);
    var counts := Counts(share, nodes);
    var weighted := s => DEFAULT_VNODES * n * WeightOf(nodes)(s);
    var low := s => total * counts(s);
    var high := s => total * counts(s) + (total * slack + (total - 1));
    forall s | s in keys
      ensures low(s) <= weighted(s) <= high(s)
    {
      ShareBounds(share, nodes, slack, s);
    }
    SumMonotone(keys, low, weighted);
    SumMonotone(keys, weighted, high);
    hide SharesWithin, Counts;
    SumAffine(keys, WeightOf(nodes), weighted, DEFAULT_VNODES * n, 0);
    SumAffine(keys, counts, low, total, 0);
    SumAffine(keys, counts, high, total, total * slack + (total - 1));
    assert |keys| == n > 0;
    SharesLargeEnough(total, Sum(keys, counts), n, slack);
    SharesSmallEnough(total, Sum(keys, counts), n);
  }

  lemma PositiveTotal(nodes: map<string, Node>)
    requires nodes != map[] && forall s :: s in nodes ==> nodes[s].weight > 0
    ensures TotalWeight(nodes) > 0
  {
    SumConstant(nodes.Keys, s => 1, 1);
    SumMonotone(nodes.Keys, s => 1, WeightOf(nodes));
    assert |nodes.Keys| > 0;
  }

  /** Four points each: between 4(39n+1) and 160n for exact shares, one node's worth less otherwise. */
  lemma DefaultRingLength(md4: Md4, share: Share, nodes: map<string, Node>, ring: seq<RingElement>, slack: nat)
    requires nodes != map[] && SharesWithin(share, nodes, slack)
    requires forall s :: s in nodes ==> DefaultVnodes(nodes[s]) && nodes[s].weight > 0
    requires IsRing(md4, share, nodes, ring)
    ensures 4 * ((39 - slack) * |nodes| + 1) <= |ring| <= 160 * |nodes|
  {
    DefaultShares(share, nodes, slack);
    RingLength(md4, share, nodes, ring);
  }

  /** Any mix of default and non-negative virtual nodes gives a ring with points on it. */
  lemma RingNotEmpty(md4: Md4, share: Share, nodes: map<string, Node>, ring: seq<RingElement>)
    requires nodes != map[] && SharesWithin(share, nodes, 1)
    requires forall s :: s in nodes ==> nodes[s].vnodes >= 0 && nodes[s].weight > 0
    requires IsRing(md4, share, nodes, ring)
    ensures ring != []
  {
    RingLength(md4, share, nodes, ring);
    if s :| s in nodes && !DefaultVnodes(nodes[s]) {
      SumRemove(nodes.Keys, s, Counts(share, nodes));
      SumConstant(nodes.Keys - {s}, t => 0, 0);
      SumMonotone(nodes.Keys - {s}, t => 0, Counts(share, nodes));
    } else {
      DefaultShares(share, nodes, 1);
    }
  }
}
