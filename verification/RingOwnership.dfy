/**
 What a look-up on the ring means: the owner of a key is the shard with the nearest point going
 clockwise. Whether the configuration alone decides it, and what changes when a shard joins.
 */
module RingOwnership {
  import opened Text
  import opened HashWord
  import opened HashRing

  /** The distance from `h` up to `p`, going round past the largest 32-bit value. */
  function Clockwise(h: Word, p: Word): nat {
    if h <= p then p - h else p - h + WORD_LIMIT
  }

  /** No other point of the configuration is nearer to `h` than one of this shard's. */
  ghost predicate Owns(md4: Md4, share: Share, nodes: map<string, Node>, h: Word, shard: string)
  {
    exists p :: p in ShardPoints(md4, share, nodes, shard) && NearestPoint(md4, share, nodes, h, p)
  }

  ghost predicate NearestPoint(md4: Md4, share: Share, nodes: map<string, Node>, h: Word, p: Word)
  {
    forall t, q :: q in ShardPoints(md4, share, nodes, t) ==> Clockwise(h, p) <= Clockwise(h, q)
  }

  /** No two shards have a point in common. */
  ghost predicate CollisionFree(md4: Md4, share: Share, nodes: map<string, Node>)
  {
    forall s, t, p :: p in ShardPoints(md4, share, nodes, s) && p in ShardPoints(md4, share, nodes, t) ==> s == t
  }

  // ---------- the search finds the nearest point ----------

  lemma OnRing(md4: Md4, share: Share, nodes: map<string, Node>, ring: seq<RingElement>, e: RingElement)
    requires IsRing(md4, share, nodes, ring)
    ensures e in ring <==> e.hash in ShardPoints(md4, share, nodes, e.shard)
  {
    assert e in ring <==> multiset(ring)[e] > 0;
    assert multiset(ring)[e] == Multiplicity(md4, share, nodes, e);
  }

  lemma SuccessorIsNearest(ring: seq<RingElement>, h: Word, o: RingElement)
    requires SortedByHash(ring) && o in ring
    ensures Clockwise(h, ring[SuccessorIndex(ring, h)].hash) <= Clockwise(h, o.hash)
  {
    var i, k := FirstAtLeast(ring, h), 0;
    k :| 0 <= k < |ring| && ring[k] == o;
    if i == |ring| {
      assert ring[0].hash <= ring[k].hash < h;
    } else if k < i {
      assert o.hash < h;
    }
  }

  /** The binary search returns the shard whose point lies nearest clockwise of the hash. */
  lemma OwnerIsNearest(md4: Md4, share: Share, nodes: map<string, Node>, ring: seq<RingElement>, h: Word)
    requires IsRing(md4, share, nodes, ring) && ring != []
    ensures Owns(md4, share, nodes, h, Owner(ring, h))
    ensures Owner(ring, h) in nodes
  {
    var e := ring[SuccessorIndex(ring, h)];
    OnRing(md4, share, nodes, ring, e);
    RingShardsAreNodes(md4, share, nodes, ring, SuccessorIndex(ring, h));
    forall t, q | q in ShardPoints(md4, share, nodes, t)
      ensures Clockwise(h, e.hash) <= Clockwise(h, q)
    {
      OnRing(md4, share, nodes, ring, RingElement(q, t));
      SuccessorIsNearest(ring, h, RingElement(q, t));
    }
    assert NearestPoint(md4, share, nodes, h, e.hash);
  }

  lemma OwnerUnique(md4: Md4, share: Share, nodes: map<string, Node>, h: Word, s: string, t: string)
    requires CollisionFree(md4, share, nodes)
    requires Owns(md4, share, nodes, h, s) && Owns(md4, share, nodes, h, t)
    ensures s == t
  {
    var p :| p in ShardPoints(md4, share, nodes, s) && NearestPoint(md4, share, nodes, h, p);
    var q :| q in ShardPoints(md4, share, nodes, t) && NearestPoint(md4, share, nodes, h, q);
    assert Clockwise(h, p) == Clockwise(h, q);
    assert p == q;
  }

  // ---------- determinism ----------

  /** Every order of the node map and of ties in the sort gives the same owners. */
  lemma OwnerIsDetermined(md4: Md4, share: Share, nodes: map<string, Node>, ring: seq<RingElement>,
                          other: seq<RingElement>, h: Word)
    requires IsRing(md4, share, nodes, ring) && IsRing(md4, share, nodes, other) && ring != [] && other != []
    requires CollisionFree(md4, share, nodes)
    ensures Owner(ring, h) == Owner(other, h)
  {
    OwnerIsNearest(md4, share, nodes, ring, h);
    OwnerIsNearest(md4, share, nodes, other, h);
    OwnerUnique(md4, share, nodes, h, Owner(ring, h), Owner(other, h));
  }

  /** Two shards with a common point can come out of the sort either way round. */
  lemma CollisionLeavesOwnerOpen(md4: Md4, share: Share, nodes: map<string, Node>, ring: seq<RingElement>)
      returns (other: seq<RingElement>, h: Word)
    requires IsRing(md4, share, nodes, ring) && !CollisionFree(md4, share, nodes)
    ensures IsRing(md4, share, nodes, other) && ring != [] && other != []
    ensures Owner(ring, h) != Owner(other, h)
  {
    var s, t, p :| p in ShardPoints(md4, share, nodes, s) && p in ShardPoints(md4, share, nodes, t) && s != t;
    h := p;
    OnRing(md4, share, nodes, ring, RingElement(p, s));
    OnRing(md4, share, nodes, ring, RingElement(p, t));
    var k :| 0 <= k < |ring| && ring[k] == RingElement(p, s);
    var l :| 0 <= l < |ring| && ring[l] == RingElement(p, t);
    var i := FirstAtLeast(ring, p);
    assert i <= k && ring[i].hash <= ring[k].hash;
    var j := if ring[i].shard == s then l else k;
    other := SwapTies(ring, i, j);
    SameHashesSameIndex(ring, other, p);
  }

  lemma SwapTies(ring: seq<RingElement>, i: nat, j: nat) returns (other: seq<RingElement>)
    requires i < |ring| && j < |ring| && ring[i].hash == ring[j].hash
    ensures |other| == |ring| && other[i] == ring[j]
    ensures forall m :: 0 <= m < |ring| ==> other[m].hash == ring[m].hash
    ensures multiset(other) == multiset(ring)
  {
    other := ring[i := ring[j]][j := ring[i]];
  }

  lemma {:induction false} SameHashesSameIndex(ring: seq<RingElement>, other: seq<RingElement>, h: Word)
    requires |other| == |ring| && forall m :: 0 <= m < |ring| ==> other[m].hash == ring[m].hash
    ensures FirstAtLeast(other, h) == FirstAtLeast(ring, h)
  {
    if ring != [] {
      SameHashesSameIndex(ring[1..], other[1..], h);
    }
  }

  /** A look-up depends on the configuration alone exactly when no two shards share a point. */
  lemma DeterminedIffCollisionFree(md4: Md4, share: Share, nodes: map<string, Node>, ring: seq<RingElement>)
    requires IsRing(md4, share, nodes, ring) && ring != []
    ensures CollisionFree(md4, share, nodes)
       <==> forall other, h :: IsRing(md4, share, nodes, other) && other != [] ==> Owner(other, h) == Owner(ring, h)
  {
    if CollisionFree(md4, share, nodes) {
      forall other, h | IsRing(md4, share, nodes, other) && other != []
        ensures Owner(other, h) == Owner(ring, h)
      {
        OwnerIsDetermined(md4, share, nodes, ring, other, h);
      }
    } else {
      var other, h := CollisionLeavesOwnerOpen(md4, share, nodes, ring);
    }
  }

  // ---------- the points of a shard ----------

  lemma {:induction false} PointAmongPoints(md4: Md4, shard: string, i: nat, j: nat, count: nat)
    requires i < count && j < REPLICAS
    ensures Point(md4, shard, i, j) in PointsOf(md4, shard, count)
    decreases count
  {
    var last := seq(REPLICAS, k requires 0 <= k < REPLICAS => Point(md4, shard, count - 1, k));
    if i == count - 1 {
      assert last[j] in PointsOf(md4, shard, count);
    } else {
      PointAmongPoints(md4, shard, i, j, count - 1);
    }
  }

  lemma {:induction false} PointComesFromVnode(md4: Md4, shard: string, count: nat, p: Word) returns (i: nat, j: nat)
    requires p in PointsOf(md4, shard, count)
    ensures i < count && j < REPLICAS && p == Point(md4, shard, i, j)
    decreases count
  {
    var last := seq(REPLICAS, k requires 0 <= k < REPLICAS => Point(md4, shard, count - 1, k));
    if p in PointsOf(md4, shard, count - 1) {
      i, j := PointComesFromVnode(md4, shard, count - 1, p);
    } else {
      assert p in last;
      i := count - 1;
      j :| 0 <= j < REPLICAS && last[j] == p;
    }
  }

  // ---------- shards that always collide ----------

  /** A name too long for the label buffer leaves no room for the number of the virtual node. */
  lemma LongNameLabel(shard: string, i: nat)
    requires |shard| >= LABEL_LIMIT && '\0' !in shard
    ensures VnodeLabel(shard, i) == shard[..LABEL_LIMIT]
  {
    assert CStr(shard) == shard;
  }

  /** Shards whose names agree that far have all points in common, under any digest. */
  lemma LongNamesCollide(md4: Md4, share: Share, nodes: map<string, Node>, s: string, t: string)
    requires s != t && '\0' !in s && '\0' !in t && |s| >= LABEL_LIMIT && |t| >= LABEL_LIMIT
    requires s[..LABEL_LIMIT] == t[..LABEL_LIMIT]
    requires VnodeCount(share, nodes, s) > 0 && VnodeCount(share, nodes, t) > 0
    ensures !CollisionFree(md4, share, nodes)
  {
    LongNameLabel(s, 0);
    LongNameLabel(t, 0);
    var p := Point(md4, s, 0, 0);
    PointAmongPoints(md4, s, 0, 0, VnodeCount(share, nodes, s));
    PointAmongPoints(md4, t, 0, 0, VnodeCount(share, nodes, t));
    assert p in ShardPoints(md4, share, nodes, s) && p in ShardPoints(md4, share, nodes, t);
  }

  /** For instance two names of 1024 characters that differ in the last one only. */
  lemma LongNamesLeaveOwnerOpen(md4: Md4, share: Share, ring: seq<RingElement>)
      returns (other: seq<RingElement>, h: Word)
    requires IsRing(md4, share, TwoLongNames(), ring)
    ensures IsRing(md4, share, TwoLongNames(), other) && ring != [] && other != []
    ensures Owner(ring, h) != Owner(other, h)
  {
    var nodes, s, t := TwoLongNames(), LongName('a'), LongName('b');
    assert s[LABEL_LIMIT] == 'a' && t[LABEL_LIMIT] == 'b';
    assert s in nodes && t in nodes;
    LongNamesCollide(md4, share, nodes, s, t);
    other, h := CollisionLeavesOwnerOpen(md4, share, nodes, ring);
  }

  function LongName(last: char): string {
    seq(LABEL_LIMIT, _ => 'x') + [last]
  }

  function TwoLongNames(): map<string, Node> {
    map[LongName('a') := Node(Hostport("h", 1), 1, 1), LongName('b') := Node(Hostport("h", 2), 1, 1)]
  }

  // ---------- looking up a shard's own label ----------

  /** The key that spells the label of a virtual node, cut short or not, belongs to that node's shard. */
  lemma SelfLookup(md4: Md4, share: Share, nodes: map<string, Node>, ring: seq<RingElement>, shard: string, i: nat)
    requires IsRing(md4, share, nodes, ring) && CollisionFree(md4, share, nodes)
    requires i < VnodeCount(share, nodes, shard)
    ensures ring != [] && Owner(ring, HashOfKey(md4, VnodeLabel(shard, i))) == shard
  {
    var p := Point(md4, shard, i, 0);
    PointAmongPoints(md4, shard, i, 0, VnodeCount(share, nodes, shard));
    OnRing(md4, share, nodes, ring, RingElement(p, shard));
    OwnerIsNearest(md4, share, nodes, ring, p);
    assert NearestPoint(md4, share, nodes, p, p);
    OwnerUnique(md4, share, nodes, p, shard, Owner(ring, p));
  }
}
