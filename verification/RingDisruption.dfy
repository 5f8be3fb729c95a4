/**
 How many keys change hands when a shard joins or leaves the ring. Consistent hashing promises
 that only the keys of that one shard move. The code keeps the promise for every digest exactly
 when no shard's number of points changes in a way that hands points from one old shard to another.
 */
module RingDisruption {
  import opened Collections
  import opened Text
  import opened HashWord
  import opened HashRing
  import opened RingOwnership
  import opened RingSize

  /** `u` has points left for `h` while `t` loses or gains the points that decide it. */
  ghost predicate CanHandOver(share: Share, before: map<string, Node>, after: map<string, Node>, t: string, u: string)
  {
    && t in before && u in before && t != u
    && ((Count(share, before, t) < Count(share, after, t) && Count(share, before, u) > 0)
        || (Count(share, after, t) < Count(share, before, t) && Count(share, after, u) > 0))
  }

  ghost predicate CanDisrupt(share: Share, before: map<string, Node>, after: map<string, Node>)
  {
    exists t, u :: CanHandOver(share, before, after, t, u)
  }

  /** A key has changed hands between two shards that were there all along. */
  ghost predicate Disrupts(md4: Md4, share: Share, before: map<string, Node>, after: map<string, Node>, h: Word)
  {
    exists a, b ::
      a in before && b in before && a != b && Owns(md4, share, before, h, a) && Owns(md4, share, after, h, b)
  }

  /** The digest has no collisions before or after, and still some key changes hands. */
  ghost predicate DisruptedBy(md4: Md4, share: Share, before: map<string, Node>, after: map<string, Node>)
  {
    && CollisionFree(md4, share, before) && CollisionFree(md4, share, after)
    && exists h :: Disrupts(md4, share, before, after, h)
  }

  // ---------- the promise kept ----------

  lemma {:induction false} PointsPrefix(md4: Md4, shard: string, m: nat, n: nat, p: Word)
    requires m <= n && p in PointsOf(md4, shard, m)
    ensures p in PointsOf(md4, shard, n)
    decreases n
  {
    if m < n {
      PointsPrefix(md4, shard, m, n - 1, p);
    }
  }

  lemma NoHandOverSamePoint(md4: Md4, share: Share, before: map<string, Node>, after: map<string, Node>, h: Word,
                            a: string, p: Word, b: string, q: Word)
    requires a in before && b in before && a != b
    requires p in ShardPoints(md4, share, before, a) && NearestPoint(md4, share, before, h, p)
    requires q in ShardPoints(md4, share, after, b) && NearestPoint(md4, share, after, h, q)
    requires !CanHandOver(share, before, after, a, b) && !CanHandOver(share, before, after, b, a)
    ensures p == q && q in ShardPoints(md4, share, before, b)
  {
    assert Count(share, before, a) > 0 && Count(share, after, b) > 0;
    PointsPrefix(md4, b, Count(share, after, b), Count(share, before, b), q);
    PointsPrefix(md4, a, Count(share, before, a), Count(share, after, a), p);
    assert q in ShardPoints(md4, share, before, b) && p in ShardPoints(md4, share, after, a);
    assert Clockwise(h, p) == Clockwise(h, q);
  }

  lemma NoHandOverNoDisruption(md4: Md4, share: Share, before: map<string, Node>, after: map<string, Node>, h: Word)
    requires before.Keys <= after.Keys
    requires CollisionFree(md4, share, before)
    requires !CanDisrupt(share, before, after)
    ensures !Disrupts(md4, share, before, after, h)
  {
    if Disrupts(md4, share, before, after, h) {
      var a, b :|
        a in before && b in before && a != b && Owns(md4, share, before, h, a) && Owns(md4, share, after, h, b);
      var p :| p in ShardPoints(md4, share, before, a) && NearestPoint(md4, share, before, h, p);
      var q :| q in ShardPoints(md4, share, after, b) && NearestPoint(md4, share, after, h, q);
      NoHandOverSamePoint(md4, share, before, after, h, a, p, b, q);
    }
  }

  /**
   When a shard joins, a key stays where it was or goes to the new shard. Read backwards: when a
   shard leaves, only the keys it owned move.
   */
  lemma MinimalDisruption(md4: Md4, share: Share, before: map<string, Node>, s: string, node: Node,
                          ring: seq<RingElement>, ring': seq<RingElement>, h: Word)
    requires s !in before
    requires IsRing(md4, share, before, ring) && ring != []
    requires IsRing(md4, share, before[s := node], ring') && ring' != []
    requires CollisionFree(md4, share, before)
    requires !CanDisrupt(share, before, before[s := node])
    ensures Owner(ring', h) == Owner(ring, h) || Owner(ring', h) == s
  {
    OwnerIsNearest(md4, share, before, ring, h);
    OwnerIsNearest(md4, share, before[s := node], ring', h);
    NoHandOverNoDisruption(md4, share, before, before[s := node], h);
  }

  // ---------- configurations that keep it ----------

  lemma ExplicitVnodesCannotDisrupt(share: Share, before: map<string, Node>, s: string, node: Node)
    requires s !in before && forall t :: t in before ==> !DefaultVnodes(before[t])
    ensures !CanDisrupt(share, before, before[s := node])
  {
    assert forall t :: t in before ==> before[s := node][t] == before[t];
    assert forall t :: t in before ==> Count(share, before, t) == Count(share, before[s := node], t);
  }

  /** What a default node gets when all `n` nodes have weight `w`. */
  function EqualShare(share: Share, w: int, n: nat): int {
    share(w, w * n, n)
  }

  lemma EqualTotal(nodes: map<string, Node>, w: int)
    requires forall u :: u in nodes ==> nodes[u].weight == w
    ensures TotalWeight(nodes) == w * |nodes|
  {
    SumConstant(nodes.Keys, WeightOf(nodes), w);
    assert |nodes.Keys| == |nodes|;
  }

  /** With equal weights a join disrupts nothing as long as the share does not change with it. */
  lemma EqualWeightsCannotDisrupt(share: Share, before: map<string, Node>, s: string, node: Node,
                                  after: map<string, Node>, w: int)
    requires s !in before && after == before[s := node]
    requires forall t :: t in after ==> after[t].weight == w
    requires EqualShare(share, w, |before|) == EqualShare(share, w, |after|)
    ensures !CanDisrupt(share, before, after)
  {
    assert forall t :: t in before ==> after[t] == before[t];
    EqualTotal(before, w);
    EqualTotal(after, w);
    assert forall t :: t in before ==> Count(share, before, t) == Count(share, after, t);
  }

  /** And when two old nodes or more all have default virtual nodes, that is the exact condition. */
  lemma EqualWeightsDisruptIffShareChanges(share: Share, before: map<string, Node>, s: string, node: Node,
                                           after: map<string, Node>, w: int)
    requires s !in before && after == before[s := node] && |before| >= 2
    requires forall t :: t in before ==> DefaultVnodes(before[t])
    requires forall t :: t in after ==> after[t].weight == w
    requires EqualShare(share, w, |before|) > 0 && EqualShare(share, w, |after|) > 0
    ensures CanDisrupt(share, before, after) <==> EqualShare(share, w, |before|) != EqualShare(share, w, |after|)
  {
    if EqualShare(share, w, |before|) == EqualShare(share, w, |after|) {
      EqualWeightsCannotDisrupt(share, before, s, node, after, w);
    } else {
      assert forall t :: t in before ==> after[t] == before[t];
      EqualTotal(before, w);
      EqualTotal(after, w);
      var t, u := TwoOf(before.Keys);
      assert CanHandOver(share, before, after, t, u);
    }
  }

  lemma TwoOf<T>(s: set<T>) returns (x: T, y: T)
    requires |s| >= 2
    ensures x in s && y in s && x != y
  {
    x :| x in s;
    assert |s - {x}| == |s| - 1;
    y :| y in s - {x};
  }

  // ---------- the promise broken ----------

  /** The shard a label was printed for: everything before the last dash. */
  function ShardOfLabel(vnodeName: string): string {
    if vnodeName == "" then ""
    else if vnodeName[|vnodeName| - 1] == '-' then vnodeName[..|vnodeName| - 1]
    else ShardOfLabel(vnodeName[..|vnodeName| - 1])
  }

  lemma {:induction false} ShardOfDashedLabel(shard: string, digits: string)
    requires AllDigits(digits)
    ensures ShardOfLabel(shard + "-" + digits) == shard
    decreases |digits|
  {
    var vnodeName := shard + "-" + digits;
    if digits == "" {
      assert vnodeName[..|vnodeName| - 1] == shard;
    } else {
      assert vnodeName[..|vnodeName| - 1] == shard + "-" + digits[..|digits| - 1];
      assert IsDigit(vnodeName[|vnodeName| - 1]);
      ShardOfDashedLabel(shard, digits[..|digits| - 1]);
    }
  }

  /** A digest with the given word in all four places. */
  function DigestOf(w: Word): Digest {
    seq(16, i requires 0 <= i < 16 => ByteOfWord(w, i % 4))
  }

  lemma DigestOfWord(w: Word, j: nat)
    requires j < REPLICAS
    ensures DigestWord(DigestOf(w), j) == w
  {
    HashSurjective(w);
    assert j == 0 || j == 1 || j == 2 || j == 3;
  }

  lemma {:induction false} DistinctRanks(shards: set<string>, first: nat) returns (rank: map<string, nat>)
    ensures rank.Keys == shards
    ensures forall s :: s in shards ==> first <= rank[s] < first + |shards|
    ensures forall s, t :: s in shards && t in shards && rank[s] == rank[t] ==> s == t
    decreases shards
  {
    if shards == {} {
      rank := map[];
    } else {
      var s :| s in shards;
      rank := DistinctRanks(shards - {s}, first);
      rank := rank[s := first + |shards| - 1];
    }
  }

  /** A digest that puts the label `special` at 0 and every other label at its shard's rank. */
  ghost function RankDigest(special: string, rank: map<string, nat>): Md4
    requires forall s :: s in rank ==> rank[s] < WORD_LIMIT
  {
    vnodeName =>
      var shard := ShardOfLabel(vnodeName);
      DigestOf(if vnodeName == special || shard !in rank then 0 else rank[shard])
  }

  /** Labels are printed in full, so different shards have different labels. */
  ghost predicate LabelsFit(share: Share, nodes: map<string, Node>, shard: string)
  {
    '\0' !in shard && forall i :: 0 <= i < Count(share, nodes, shard) ==> |shard + "-" + NatText(i)| <= LABEL_LIMIT
  }

  /** Under a rank digest virtual node `i` of `s` has all its points at the rank of `s`, or at 0. */
  lemma RankedPoint(rank: map<string, nat>, t: string, c: nat, s: string, i: nat, j: nat)
    requires forall x :: x in rank ==> 0 < rank[x] < WORD_LIMIT
    requires s in rank && '\0' !in s && |s + "-" + NatText(i)| <= LABEL_LIMIT && j < REPLICAS
    ensures Point(RankDigest(t + "-" + NatText(c), rank), s, i, j) == if s == t && i == c then 0 else rank[s]
  {
    var special := t + "-" + NatText(c);
    var mine := s + "-" + NatText(i);
    ShardOfDashedLabel(s, NatText(i));
    assert VnodeLabel(s, i) == mine;
    if mine == special {
      DashedNumeralUnique(s, NatText(i), t, NatText(c));
      NatTextInjective(i, c);
    }
    var word := if s == t && i == c then 0 else rank[s];
    assert RankDigest(special, rank)(mine) == DigestOf(word);
    DigestOfWord(word, j);
  }

  lemma RankedPoints(share: Share, nodes: map<string, Node>, rank: map<string, nat>, t: string, c: nat, s: string,
                     p: Word)
    requires forall x :: x in rank ==> 0 < rank[x] < WORD_LIMIT
    requires s in rank && LabelsFit(share, nodes, s)
    ensures var points := ShardPoints(RankDigest(t + "-" + NatText(c), rank), share, nodes, s);
            && (p in points ==> p == rank[s] || (p == 0 && s == t && c < Count(share, nodes, t)))
            && (s == t && c < Count(share, nodes, t) ==> 0 in points)
            && (s != t && Count(share, nodes, s) > 0 ==> rank[s] in points)
  {
    var md4 := RankDigest(t + "-" + NatText(c), rank);
    if p in ShardPoints(md4, share, nodes, s) {
      var i, j := PointComesFromVnode(md4, s, Count(share, nodes, s), p);
      RankedPoint(rank, t, c, s, i, j);
    }
    if s == t && c < Count(share, nodes, t) {
      PointAmongPoints(md4, s, c, 0, Count(share, nodes, s));
      RankedPoint(rank, t, c, s, c, 0);
    }
    if s != t && Count(share, nodes, s) > 0 {
      PointAmongPoints(md4, s, 0, 0, Count(share, nodes, s));
      RankedPoint(rank, t, c, s, 0, 0);
    }
  }

  lemma RankedCollisionFree(share: Share, nodes: map<string, Node>, rank: map<string, nat>, t: string, c: nat)
    requires forall x :: x in rank ==> 0 < rank[x] < WORD_LIMIT
    requires forall x, y :: x in rank && y in rank && rank[x] == rank[y] ==> x == y
    requires nodes.Keys <= rank.Keys && forall s :: s in nodes ==> LabelsFit(share, nodes, s)
    ensures CollisionFree(RankDigest(t + "-" + NatText(c), rank), share, nodes)
  {
    var md4 := RankDigest(t + "-" + NatText(c), rank);
    forall x, y, p | p in ShardPoints(md4, share, nodes, x) && p in ShardPoints(md4, share, nodes, y)
      ensures x == y
    {
      assert x in nodes && y in nodes;
      RankedPoints(share, nodes, rank, t, c, x, p);
      RankedPoints(share, nodes, rank, t, c, y, p);
    }
  }

  /** With the special label present its shard owns hash 0; without it the shard of rank 1 does. */
  lemma RankedOwner(share: Share, nodes: map<string, Node>, rank: map<string, nat>, t: string, c: nat, u: string)
    requires forall x :: x in rank ==> 0 < rank[x] < WORD_LIMIT
    requires t in rank && u in rank && t != u && rank[u] == 1
    requires nodes.Keys <= rank.Keys && forall s :: s in nodes ==> LabelsFit(share, nodes, s)
    requires t in nodes && u in nodes
    ensures c < Count(share, nodes, t) ==> Owns(RankDigest(t + "-" + NatText(c), rank), share, nodes, 0, t)
    ensures Count(share, nodes, t) <= c && Count(share, nodes, u) > 0
        ==> Owns(RankDigest(t + "-" + NatText(c), rank), share, nodes, 0, u)
  {
    var md4 := RankDigest(t + "-" + NatText(c), rank);
    RankedPoints(share, nodes, rank, t, c, t, 0);
    RankedPoints(share, nodes, rank, t, c, u, 1);
    if c < Count(share, nodes, t) {
      assert NearestPoint(md4, share, nodes, 0, 0);
    } else if Count(share, nodes, u) > 0 {
      forall x, q | q in ShardPoints(md4, share, nodes, x)
        ensures Clockwise(0, 1) <= Clockwise(0, q)
      {
        assert x in nodes;
        RankedPoints(share, nodes, rank, t, c, x, q);
      }
      assert NearestPoint(md4, share, nodes, 0, 1);
    }
  }

  lemma HandOverHappens(share: Share, before: map<string, Node>, after: map<string, Node>, t: string, u: string)
      returns (md4: Md4)
    requires before.Keys <= after.Keys && |after| + 3 < WORD_LIMIT
    requires forall s :: s in before ==> LabelsFit(share, before, s)
    requires forall s :: s in after ==> LabelsFit(share, after, s)
    requires CanHandOver(share, before, after, t, u)
    ensures CollisionFree(md4, share, before) && CollisionFree(md4, share, after)
    ensures Disrupts(md4, share, before, after, 0)
  {
    hide LabelsFit, CollisionFree, RankDigest, Owns, Sum;
    var others := DistinctRanks(after.Keys - {u}, 2);
    assert |after.Keys - {u}| <= |after|;
    var rank := others[u := 1];
    var m, n := Count(share, before, t), Count(share, after, t);
    var c := if m < n then m else n;
    md4 := RankDigest(t + "-" + NatText(c), rank);
    RankedCollisionFree(share, before, rank, t, c);
    RankedCollisionFree(share, after, rank, t, c);
    RankedOwner(share, before, rank, t, c, u);
    RankedOwner(share, after, rank, t, c, u);
  }

  /**
   Adding a shard moves keys between old shards, for some digest without collisions, exactly when
   the change of weights lets one old shard's point count change while another old shard is there
   to take or lose the keys.
   */
  lemma DisruptionIffHandOver(share: Share, before: map<string, Node>, s: string, node: Node, after: map<string, Node>)
    requires s !in before && after == before[s := node] && |after| + 3 < WORD_LIMIT
    requires forall t :: t in before ==> LabelsFit(share, before, t)
    requires forall t :: t in after ==> LabelsFit(share, after, t)
    ensures CanDisrupt(share, before, after) <==> exists md4 :: DisruptedBy(md4, share, before, after)
  {
    if CanDisrupt(share, before, after) {
      var t, u :| CanHandOver(share, before, after, t, u);
      var md4 := HandOverHappens(share, before, after, t, u);
      assert DisruptedBy(md4, share, before, after);
    } else {
      forall md4, h | CollisionFree(md4, share, before)
        ensures !Disrupts(md4, share, before, after, h)
      {
        NoHandOverNoDisruption(md4, share, before, after, h);
      }
    }
  }

  lemma {:induction false} ShortNumeral(i: nat)
    requires i < 100
    ensures |NatText(i)| <= 2
  {
    if i >= 10 {
      assert NatText(i) == NatText(i / 10) + [DigitChar(i % 10)];
      assert NatText(i / 10) == [DigitChar(i / 10)];
    }
  }

  /** Short names fit their labels while there are fewer than a hundred of them. */
  lemma ShortLabelsFit(share: Share, nodes: map<string, Node>, shard: string)
    requires '\0' !in shard && |shard| <= 1000 && Count(share, nodes, shard) <= 100
    ensures LabelsFit(share, nodes, shard)
  {
    forall i | 0 <= i < Count(share, nodes, shard)
      ensures |shard + "-" + NatText(i)| <= LABEL_LIMIT
    {
      ShortNumeral(i);
    }
  }

  lemma TotalsOfThree(before: map<string, Node>, after: map<string, Node>, a: Node, b: Node, c: Node)
    requires before == map["a" := a, "b" := b] && after == before["c" := c]
    ensures TotalWeight(before) == a.weight + b.weight && TotalWeight(after) == a.weight + b.weight + c.weight
    ensures before.Keys == {"a", "b"} && |before| == 2 && after.Keys == {"a", "b", "c"} && |after| == 3
    ensures after["a"] == a && after["b"] == b && after["c"] == c
  {
    var keys := {"a", "b"};
    assert before.Keys == keys && after.Keys == keys + {"c"};
    assert |before| == |before.Keys| == 2 && |after| == |after.Keys| == 3;
    SumOfTwo(WeightOf(before), "a", "b");
    SumOfTwo(WeightOf(after), "a", "b");
    SumInsert(keys, "c", WeightOf(after));
  }

  /** One node of weight 1 and one of weight 3, both with default virtual nodes. */
  const ONE_AND_THREE: map<string, Node> :=
    map["a" := Node(Hostport("h", 1), 0, 1), "b" := Node(Hostport("h", 2), 0, 3)]

  const ONE_MORE: Node := Node(Hostport("h", 3), 0, 1)

  lemma CountWithin(share: Share, nodes: map<string, Node>, shard: string, exact: int)
    requires SharesWithin(share, nodes, 1) && shard in nodes && DefaultVnodes(nodes[shard])
    requires ExactShare(nodes[shard].weight, TotalWeight(nodes), |nodes|) == exact > 0
    ensures exact - 1 <= Count(share, nodes, shard) <= exact
  {
    hide TotalWeight, ExactShare;
  }

  /** Their shares, which a third node of weight 1 changes. */
  lemma SharesChange(share: Share, before: map<string, Node>, after: map<string, Node>)
    requires before == ONE_AND_THREE && after == before["c" := ONE_MORE]
    requires SharesWithin(share, before, 1) && SharesWithin(share, after, 1)
    ensures before.Keys == {"a", "b"} && after.Keys == {"a", "b", "c"} && |after| == 3
    ensures 19 <= Count(share, before, "a") <= 20 && 59 <= Count(share, before, "b") <= 60
    ensures 23 <= Count(share, after, "a") <= 24 && 71 <= Count(share, after, "b") <= 72
    ensures 23 <= Count(share, after, "c") <= 24
  {
    hide SharesWithin, Count;
    TotalsOfThree(before, after, before["a"], before["b"], ONE_MORE);
    hide TotalWeight;
    CountWithin(share, before, "a", 20);
    CountWithin(share, before, "b", 60);
    CountWithin(share, after, "a", 24);
    CountWithin(share, after, "b", 72);
    CountWithin(share, after, "c", 24);
  }

  /**
   A configuration that breaks the promise, for all shares within one of the exact ones: nodes of
   weight 1 and 3 with default virtual nodes have 20 and 60 of them, and 24 and 72 once a third node
   of weight 1 joins. For some digest without collisions keys then move between the first two.
   */
  lemma DefaultVnodesDisrupt(share: Share) returns (md4: Md4)
    requires SharesWithin(share, ONE_AND_THREE, 1) && SharesWithin(share, ONE_AND_THREE["c" := ONE_MORE], 1)
    ensures DisruptedBy(md4, share, ONE_AND_THREE, ONE_AND_THREE["c" := ONE_MORE])
  {
    var before, after := ONE_AND_THREE, ONE_AND_THREE["c" := ONE_MORE];
    SharesChange(share, before, after);
    hide Count, SharesWithin;
    assert CanHandOver(share, before, after, "a", "b");
    forall t | t in after
      ensures LabelsFit(share, after, t) && (t in before ==> LabelsFit(share, before, t))
    {
      ShortLabelsFit(share, after, t);
      if t in before {
        ShortLabelsFit(share, before, t);
      }
    }
    hide LabelsFit, CanHandOver;
    DisruptionIffHandOver(share, before, "c", ONE_MORE, after);
    md4 :| DisruptedBy(md4, share, before, after);
  }

  lemma SumOfTwo(f: string -> int, x: string, y: string)
    requires x != y
    ensures Sum({x, y}, f) == f(x) + f(y)
  {
    SumInsert({}, x, f);
    SumInsert({x}, y, f);
    assert {x} + {y} == {x, y} && {} + {x} == {x};
  }
}
