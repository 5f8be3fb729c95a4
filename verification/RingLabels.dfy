/**
 Which keys can change hands, in terms of the labels the digest is taken of. Labels are printed into
 a buffer and cut to its size, so long names may share them. For any two configurations, whatever
 the names, the labels decide.
 */
module RingLabels {
  import opened HashWord
  import opened HashRing
  import opened RingDisruption
  import opened RingOwnership

  ghost function Labels(share: Share, nodes: map<string, Node>, shard: string): set<string> {
    set i: nat | i < Count(share, nodes, shard) :: VnodeLabel(shard, i)
  }

  ghost function AllLabels(share: Share, nodes: map<string, Node>): set<string> {
    set shard, l | shard in nodes && l in Labels(share, nodes, shard) :: l
  }

  /** No two shards have a label in common. */
  ghost predicate LabelsApart(share: Share, nodes: map<string, Node>) {
    forall s, t :: s in nodes && t in nodes && s != t ==> Labels(share, nodes, s) !! Labels(share, nodes, t)
  }

  /** Label `la` of shard `a` before and `lb` of shard `b` after: the same one, or one of them is new or gone. */
  ghost predicate CanSwitch(share: Share, before: map<string, Node>, after: map<string, Node>, a: string, b: string,
                            la: string, lb: string)
  {
    && a in before && b in before && b in after && a != b
    && la in Labels(share, before, a) && lb in Labels(share, after, b)
    && (la == lb || la !in AllLabels(share, after) || lb !in AllLabels(share, before))
  }

  // ---------- points and labels ----------

  lemma PointsHaveLabels(md4: Md4, share: Share, nodes: map<string, Node>, shard: string, p: Word)
      returns (l: string, j: nat)
    requires p in ShardPoints(md4, share, nodes, shard)
    ensures l in Labels(share, nodes, shard) && l in AllLabels(share, nodes) && shard in nodes
    ensures j < REPLICAS && p == DigestWord(md4(l), j)
  {
    var i;
    i, j := PointComesFromVnode(md4, shard, Count(share, nodes, shard), p);
    l := VnodeLabel(shard, i);
  }

  lemma LabelsHavePoints(md4: Md4, share: Share, nodes: map<string, Node>, shard: string, l: string, j: nat)
    requires l in Labels(share, nodes, shard) && j < REPLICAS
    ensures DigestWord(md4(l), j) in ShardPoints(md4, share, nodes, shard)
  {
    var i: nat :| i < Count(share, nodes, shard) && l == VnodeLabel(shard, i);
    PointAmongPoints(md4, shard, i, j, Count(share, nodes, shard));
  }

  lemma HolderOf(share: Share, nodes: map<string, Node>, l: string) returns (shard: string)
    requires l in AllLabels(share, nodes)
    ensures shard in nodes && l in Labels(share, nodes, shard)
  {
    shard :| shard in nodes && l in Labels(share, nodes, shard);
  }

  lemma CollisionFreeApart(md4: Md4, share: Share, nodes: map<string, Node>)
    requires CollisionFree(md4, share, nodes)
    ensures LabelsApart(share, nodes)
  {
    forall s, t, l | l in Labels(share, nodes, s) && l in Labels(share, nodes, t)
      ensures s == t
    {
      LabelsHavePoints(md4, share, nodes, s, l, 0);
      LabelsHavePoints(md4, share, nodes, t, l, 0);
    }
  }

  // ---------- a key that changes hands shows a switch ----------

  lemma OneShardOnly(md4: Md4, share: Share, nodes: map<string, Node>, s: string, t: string, p: Word)
    requires CollisionFree(md4, share, nodes)
    requires p in ShardPoints(md4, share, nodes, s) && p in ShardPoints(md4, share, nodes, t)
    ensures s == t
  {
  }

  lemma BothNearest(md4: Md4, share: Share, before: map<string, Node>, after: map<string, Node>, h: Word,
                    x: string, q: Word, y: string, p: Word)
    requires NearestPoint(md4, share, before, h, p) && q in ShardPoints(md4, share, before, x)
    requires NearestPoint(md4, share, after, h, q) && p in ShardPoints(md4, share, after, y)
    ensures p == q
  {
    assert Clockwise(h, p) == Clockwise(h, q);
  }

  lemma DisruptionSwitches(md4: Md4, share: Share, before: map<string, Node>, after: map<string, Node>, h: Word)
      returns (a: string, b: string, la: string, lb: string)
    requires CollisionFree(md4, share, before) && CollisionFree(md4, share, after)
    requires Disrupts(md4, share, before, after, h)
    ensures CanSwitch(share, before, after, a, b, la, lb)
  {
    a, b :| a in before && b in before && a != b && Owns(md4, share, before, h, a) && Owns(md4, share, after, h, b);
    var p :| p in ShardPoints(md4, share, before, a) && NearestPoint(md4, share, before, h, p);
    var q :| q in ShardPoints(md4, share, after, b) && NearestPoint(md4, share, after, h, q);
    hide NearestPoint, CollisionFree, ShardPoints, Labels, AllLabels, DigestWord;
    var i, j;
    la, i := PointsHaveLabels(md4, share, before, a, p);
    lb, j := PointsHaveLabels(md4, share, after, b, q);
    if la in AllLabels(share, after) && lb in AllLabels(share, before) {
      var y := HolderOf(share, after, la);
      LabelsHavePoints(md4, share, after, y, la, i);
      var x := HolderOf(share, before, lb);
      LabelsHavePoints(md4, share, before, x, lb, j);
      BothNearest(md4, share, before, after, h, x, q, y, p);
      OneShardOnly(md4, share, after, y, b, p);
      lb := la;
    }
  }

  // ---------- and a switch can be made to show ----------

  /** Every label has one word to itself. */
  ghost predicate Ranks(rank: map<string, nat>) {
    && (forall l :: l in rank ==> rank[l] < WORD_LIMIT)
    && (forall l, m :: l in rank && m in rank && rank[l] == rank[m] ==> l == m)
  }

  function LabelDigest(rank: map<string, nat>): Md4
    requires forall l :: l in rank ==> rank[l] < WORD_LIMIT
  {
    l => DigestOf(if l in rank then rank[l] else 0)
  }

  lemma RankedLabel(share: Share, nodes: map<string, Node>, rank: map<string, nat>, shard: string, p: Word)
      returns (l: string)
    requires Ranks(rank) && AllLabels(share, nodes) <= rank.Keys
    requires p in ShardPoints(LabelDigest(rank), share, nodes, shard)
    ensures shard in nodes && l in Labels(share, nodes, shard) && l in AllLabels(share, nodes) && p == rank[l]
  {
    var j;
    l, j := PointsHaveLabels(LabelDigest(rank), share, nodes, shard, p);
    DigestOfWord(rank[l], j);
  }

  lemma RankedApart(share: Share, nodes: map<string, Node>, rank: map<string, nat>)
    requires Ranks(rank) && AllLabels(share, nodes) <= rank.Keys && LabelsApart(share, nodes)
    ensures CollisionFree(LabelDigest(rank), share, nodes)
  {
    var md4 := LabelDigest(rank);
    forall s, t, p | p in ShardPoints(md4, share, nodes, s) && p in ShardPoints(md4, share, nodes, t)
      ensures s == t
    {
      var l := RankedLabel(share, nodes, rank, s, p);
      var m := RankedLabel(share, nodes, rank, t, p);
    }
  }

  /** The shard of the label with the nearest word owns the hash. */
  lemma RankedNearest(share: Share, nodes: map<string, Node>, rank: map<string, nat>, h: Word, shard: string, l: string)
    requires Ranks(rank) && AllLabels(share, nodes) <= rank.Keys && shard in nodes && l in Labels(share, nodes, shard)
    requires forall m :: m in AllLabels(share, nodes) ==> Clockwise(h, rank[l]) <= Clockwise(h, rank[m])
    ensures Owns(LabelDigest(rank), share, nodes, h, shard)
  {
    var md4 := LabelDigest(rank);
    assert l in AllLabels(share, nodes);
    LabelsHavePoints(md4, share, nodes, shard, l, 0);
    DigestOfWord(rank[l], 0);
    forall t, q | q in ShardPoints(md4, share, nodes, t)
      ensures Clockwise(h, rank[l]) <= Clockwise(h, q)
    {
      var m := RankedLabel(share, nodes, rank, t, q);
    }
    assert NearestPoint(md4, share, nodes, h, rank[l]);
  }

  /** Ranks for all labels, `first` before `second` before the rest. */
  lemma RanksFor(labels: set<string>, first: string, second: string) returns (rank: map<string, nat>)
    requires first in labels && second in labels && |labels| < WORD_LIMIT - 1
    ensures Ranks(rank) && rank.Keys == labels && rank[first] == 0 && (second != first ==> rank[second] == 1)
    ensures forall l :: l in labels && l != first && l != second ==> rank[l] > 1
  {
    var rest := labels - {first, second};
    FewerLeft(labels, first, second);
    var others := DistinctRanks(rest, 2);
    rank := others[second := 1][first := 0];
    assert rank.Keys == rest + {first, second} == labels;
    forall l | l in rest
      ensures rank[l] == others[l] && 1 < rank[l] < WORD_LIMIT
    {
    }
  }

  lemma FewerLeft(labels: set<string>, first: string, second: string)
    ensures |labels - {first, second}| <= |labels|
  {
  }

  lemma SwitchShows(share: Share, before: map<string, Node>, after: map<string, Node>, a: string, b: string,
                    la: string, lb: string) returns (md4: Md4)
    requires LabelsApart(share, before) && LabelsApart(share, after) && CanSwitch(share, before, after, a, b, la, lb)
    requires |AllLabels(share, before) + AllLabels(share, after)| < WORD_LIMIT - 1
    ensures DisruptedBy(md4, share, before, after)
  {
    hide Labels, CollisionFree, LabelsApart, Owns, LabelDigest;
    var labels := AllLabels(share, before) + AllLabels(share, after);
    SwitchedLabels(share, before, after, a, b, la, lb);
    var first, second := lb, la;
    if la !in AllLabels(share, after) {
      first, second := la, lb;
    }
    var rank := RanksFor(labels, first, second);
    RankedApart(share, before, rank);
    RankedApart(share, after, rank);
    RankedNearest(share, before, rank, 0, a, la);
    RankedNearest(share, after, rank, 0, b, lb);
    md4 := LabelDigest(rank);
    assert Disrupts(md4, share, before, after, 0);
  }

  lemma SwitchedLabels(share: Share, before: map<string, Node>, after: map<string, Node>, a: string, b: string,
                       la: string, lb: string)
    requires CanSwitch(share, before, after, a, b, la, lb)
    ensures la in AllLabels(share, before) && lb in AllLabels(share, after)
  {
  }

  /**
   For any two configurations and any names: keys can move between shards that are in both, for some
   digest without collisions, if and only if in neither two shards share a label, and some label of
   one shard before and some label of another after are the same, or one of them is new or gone.
   */
  lemma DisruptionIffSwitch(share: Share, before: map<string, Node>, after: map<string, Node>)
    requires |AllLabels(share, before) + AllLabels(share, after)| < WORD_LIMIT - 1
    ensures (exists md4 :: DisruptedBy(md4, share, before, after))
       <==> LabelsApart(share, before) && LabelsApart(share, after)
            && exists a, b, la, lb :: CanSwitch(share, before, after, a, b, la, lb)
  {
    hide CollisionFree, LabelsApart, CanSwitch, Disrupts, AllLabels;
    if md4 :| DisruptedBy(md4, share, before, after) {
      CollisionFreeApart(md4, share, before);
      CollisionFreeApart(md4, share, after);
      var h :| Disrupts(md4, share, before, after, h);
      var a, b, la, lb := DisruptionSwitches(md4, share, before, after, h);
    }
    if a, b, la, lb :| LabelsApart(share, before) && LabelsApart(share, after)
                       && CanSwitch(share, before, after, a, b, la, lb) {
      var md4 := SwitchShows(share, before, after, a, b, la, lb);
    }
  }
}
