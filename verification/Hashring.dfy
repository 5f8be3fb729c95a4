/**
 The consistent hash ring: how its points are generated from weights and virtual nodes, and how a
 key is looked up by binary search.
 */
module HashRing {
  import opened Arithmetic
  import opened Collections
  import opened Text
  import opened HashWord

  /** An MD4 digest, in the output order of section 3.5 of RFC 1320. */
  type Digest = d: seq<bv8> | |d| == 16 witness seq(16, _ => 0)

  /** MD4 itself stays uninterpreted. */
  type Md4 = string -> Digest

  /** The whole number of virtual nodes a weight earns out of a total weight, among so many nodes. */
  type Share = (int, int, int) -> int

  const REPLICAS: nat := 4
  const DEFAULT_VNODES: nat := 40

  /** Size of the buffer the label of a virtual node is printed into, less the final NUL. */
  const LABEL_LIMIT: nat := 1023

  datatype Hostport = Hostport(host: string, port: int)

  datatype Node = Node(hostport: Hostport, vnodes: int, weight: int)

  datatype RingElement = RingElement(hash: Word, shard: string)

  // ---------- points ----------

  /** Little-endian word `j` of a digest. */
  function DigestWord(digest: Digest, j: nat): Word
    requires j < REPLICAS
  {
    Hash(digest[3 + j * 4], digest[2 + j * 4], digest[1 + j * 4], digest[j * 4])
  }

  /** The same in bytes: four of them, the lowest first. */
  function BytesValue(digest: Digest, j: nat): int
    requires j < 4
  {
    digest[3 + j * 4] as int * 0x100_0000 + digest[2 + j * 4] as int * 0x1_0000
    + digest[1 + j * 4] as int * 0x100 + digest[j * 4] as int
  }

  lemma DigestWordBytes(digest: Digest, j: nat)
    requires j < 4
    ensures DigestWord(digest, j) == BytesValue(digest, j)
  {
    hide Hash;
    HashValueOfBytes(digest[3 + j * 4], digest[2 + j * 4], digest[1 + j * 4], digest[j * 4]);
  }

  function HashOfKey(md4: Md4, key: string): Word {
    DigestWord(md4(key), 0)
  }

  function VnodeLabel(shard: string, i: nat): string {
    Truncate(CStr(shard) + "-" + NatText(i), LABEL_LIMIT)
  }

  /** The label is the name up to a NUL, a dash and the number, as far as they go into 1023 characters. */
  lemma LabelText(shard: string, i: nat)
    ensures VnodeLabel(shard, i) <= CStr(shard) + "-" + NatText(i)
    ensures |VnodeLabel(shard, i)| < 1023 ==> VnodeLabel(shard, i) == CStr(shard) + "-" + NatText(i)
    ensures |VnodeLabel(shard, i)| <= 1023
  {
  }

  function Point(md4: Md4, shard: string, i: nat, j: nat): Word
    requires j < REPLICAS
  {
    DigestWord(md4(VnodeLabel(shard, i)), j)
  }

  /** The points of the first `count` virtual nodes of a shard. */
  function PointsOf(md4: Md4, shard: string, count: nat): (points: seq<Word>)
    ensures |points| == REPLICAS * count
  {
    if count == 0 then []
    else PointsOf(md4, shard, count - 1)
         + seq(REPLICAS, j requires 0 <= j < REPLICAS => Point(md4, shard, count - 1, j))
  }

  /** Point k is word k % 4 of the digest of label k / 4. */
  lemma {:induction false} PointAt(md4: Md4, shard: string, count: nat, k: nat)
    requires k < 4 * count
    ensures PointsOf(md4, shard, count)[k] == BytesValue(md4(VnodeLabel(shard, k / 4)), k % 4)
  {
    hide DigestWord, BytesValue, VnodeLabel;
    if k / 4 == count - 1 {
      assert k == 4 * (count - 1) + k % 4;
      DigestWordBytes(md4(VnodeLabel(shard, k / 4)), k % 4);
    } else {
      PointAt(md4, shard, count - 1, k);
    }
  }

  // ---------- how many virtual nodes a shard gets ----------

  function WeightOf(nodes: map<string, Node>): string -> int {
    shard => if shard in nodes then nodes[shard].weight else 0
  }

  ghost function TotalWeight(nodes: map<string, Node>): int {
    Sum(nodes.Keys, WeightOf(nodes))
  }

  ghost predicate DefaultVnodes(node: Node) {
    node.vnodes == 0 || node.vnodes == DEFAULT_VNODES
  }

  /** A node with virtual nodes of its own, other than the default number, gets exactly those. */
  ghost function VnodeCount(share: Share, nodes: map<string, Node>, shard: string): int {
    if shard !in nodes then 0
    else if !DefaultVnodes(nodes[shard]) then nodes[shard].vnodes
    else share(nodes[shard].weight, TotalWeight(nodes), |nodes|)
  }

  ghost function Count(share: Share, nodes: map<string, Node>, shard: string): nat {
    AtLeastZero(VnodeCount(share, nodes, shard))
  }

  ghost function ShardPoints(md4: Md4, share: Share, nodes: map<string, Node>, shard: string): seq<Word>
  {
    PointsOf(md4, shard, Count(share, nodes, shard))
  }

  // ---------- the finished ring ----------

  ghost predicate SortedByHash(ring: seq<RingElement>) {
    forall i, j :: 0 <= i < j < |ring| ==> ring[i].hash <= ring[j].hash
  }

  ghost function Multiplicity(md4: Md4, share: Share, nodes: map<string, Node>, e: RingElement): nat
  {
    multiset(ShardPoints(md4, share, nodes, e.shard))[e.hash]
  }

  /** `ring` holds exactly the points of every shard, sorted; nothing is said about ties. */
  ghost predicate IsRing(md4: Md4, share: Share, nodes: map<string, Node>, ring: seq<RingElement>) {
    && SortedByHash(ring)
    && forall e :: multiset(ring)[e] == Multiplicity(md4, share, nodes, e)
  }

  function Tag(shard: string, points: seq<Word>): (elements: seq<RingElement>)
    ensures |elements| == |points|
  {
    seq(|points|, i requires 0 <= i < |points| => RingElement(points[i], shard))
  }

  lemma {:induction false} TagMultiset(shard: string, points: seq<Word>, e: RingElement)
    ensures multiset(Tag(shard, points))[e] == if e.shard == shard then multiset(points)[e.hash] else 0
  {
    if points != [] {
      var front, last := points[..|points| - 1], points[|points| - 1];
      TagMultiset(shard, front, e);
      assert points == front + [last];
      assert Tag(shard, points) == Tag(shard, front) + [RingElement(last, shard)];
    }
  }

  /** The first `n` points of virtual node `i`, tagged. */
  function Replicas(md4: Md4, shard: string, i: nat, n: nat): seq<RingElement>
    requires n <= REPLICAS
  {
    seq(n, j requires 0 <= j < n => RingElement(Point(md4, shard, i, j), shard))
  }

  lemma NoPointsYet(md4: Md4, shard: string)
    ensures Tag(shard, PointsOf(md4, shard, 0)) == []
  {
  }

  lemma PointsOfOneMore(md4: Md4, shard: string, i: nat)
    ensures Tag(shard, PointsOf(md4, shard, i + 1))
         == Tag(shard, PointsOf(md4, shard, i)) + Replicas(md4, shard, i, REPLICAS)
  {
    hide Point;
  }

  lemma TaggedPoints(md4: Md4, shard: string, count: nat)
    ensures var elements := Tag(shard, PointsOf(md4, shard, count));
            && |elements| == 4 * count
            && forall n :: 0 <= n < |elements| ==>
                 && elements[n].shard == shard
                 && elements[n].hash == BytesValue(md4(VnodeLabel(shard, n / 4)), n % 4)
  {
    hide PointsOf, BytesValue, VnodeLabel;
    var points := PointsOf(md4, shard, count);
    forall n | 0 <= n < 4 * count
      ensures points[n] == BytesValue(md4(VnodeLabel(shard, n / 4)), n % 4)
    {
      PointAt(md4, shard, count, n);
    }
  }

  // ---------- look-up ----------

  /** Linear search: the number of leading elements whose point lies before `h`. */
  ghost function FirstAtLeast(ring: seq<RingElement>, h: Word): (i: nat)
    ensures i <= |ring|
    ensures forall j :: 0 <= j < i ==> ring[j].hash < h
    ensures i < |ring| ==> h <= ring[i].hash
  {
    if ring == [] || h <= ring[0].hash then 0 else 1 + FirstAtLeast(ring[1..], h)
  }

  /** Past the largest point the search wraps to the first element. */
  ghost function SuccessorIndex(ring: seq<RingElement>, h: Word): (i: nat)
    ensures i < |ring| || (i == 0 && ring == [])
  {
    if FirstAtLeast(ring, h) == |ring| then 0 else FirstAtLeast(ring, h)
  }

  ghost function Owner(ring: seq<RingElement>, h: Word): string
    requires ring != []
  {
    ring[SuccessorIndex(ring, h)].shard
  }

  lemma InsertKeepsSorted(sorted: seq<RingElement>, i: nat, e: RingElement)
    requires SortedByHash(sorted) && i <= |sorted|
    requires i > 0 ==> sorted[i - 1].hash <= e.hash
    requires forall j :: i <= j < |sorted| ==> e.hash < sorted[j].hash
    ensures SortedByHash(sorted[..i] + [e] + sorted[i..])
  {
    var r := sorted[..i] + [e] + sorted[i..];
    forall j, k | 0 <= j < k < |r|
      ensures r[j].hash <= r[k].hash
    {
      var a := if j < i then sorted[j] else if j == i then e else sorted[j - 1];
      var b := if k < i then sorted[k] else if k == i then e else sorted[k - 1];
      assert r[j] == a && r[k] == b;
    }
  }

  lemma InsertMultiset<T>(s: seq<T>, i: nat, e: T)
    requires i <= |s|
    ensures multiset(s[..i] + [e] + s[i..]) == multiset(s) + multiset{e}
  {
    assert s == s[..i] + s[i..];
  }

  /** Sorts by point. Which of several elements with one point comes first is not promised. */
  method StableSort(elements: seq<RingElement>) returns (sorted: seq<RingElement>)
    ensures SortedByHash(sorted)
    ensures multiset(sorted) == multiset(elements)
  {
    sorted := [];
    for n := 0 to |elements|
      invariant SortedByHash(sorted)
      invariant multiset(sorted) == multiset(elements[..n])
    {
      var e := elements[n];
      var i := |sorted|;
      while i > 0 && sorted[i - 1].hash > e.hash
        invariant 0 <= i <= |sorted|
        invariant forall j :: i <= j < |sorted| ==> e.hash < sorted[j].hash
      {
        i := i - 1;
      }
      assert elements[..n + 1] == elements[..n] + [e];
      InsertKeepsSorted(sorted, i, e);
      InsertMultiset(sorted, i, e);
      sorted := sorted[..i] + [e] + sorted[i..];
    }
    assert elements[..|elements|] == elements;
  }

  class Hashring {
    const md4: Md4
    const share: Share
    var ring: seq<RingElement>
    var nodes: map<string, Node>

    ghost predicate Valid()
      reads this
    {
      IsRing(md4, share, nodes, ring)
    }

    constructor (md4: Md4, share: Share, nodes: map<string, Node>)
      ensures this.md4 == md4 && this.share == share && this.nodes == nodes
      ensures if nodes == map[] then ring == [] else Valid()
    {
      this.md4 := md4;
      this.share := share;
      this.nodes := nodes;
      this.ring := [];
      new;
      GenerateContinuum();
    }

    /** Refuses an empty node list, as the original constructor does by throwing. */
    static method Create(md4: Md4, share: Share, nodes: map<string, Node>) returns (r: Result<Hashring>)
      ensures r.Success? <==> nodes != map[]
      ensures r.Success? ==>
                && fresh(r.value) && r.value.Valid()
                && r.value.md4 == md4 && r.value.share == share && r.value.nodes == nodes
      ensures r.Failure? ==> r.error == "Nodes list cannot be empty"
    {
      if |nodes| == 0 {
        return Failure("Nodes list cannot be empty");
      }
      var hashring := new Hashring(md4, share, nodes);
      r := Success(hashring);
    }

    /** The two inner loops of the generation: `length` virtual nodes, four points each. */
    method PushPoints(shard: string, length: int)
      modifies this`ring
      ensures ring == old(ring) + Tag(shard, PointsOf(md4, shard, AtLeastZero(length)))
      ensures |ring| == |old(ring)| + if length < 0 then 0 else 4 * length
      ensures forall k :: |old(ring)| <= k < |ring| ==>
                var n := k - |old(ring)|;
                ring[k].shard == shard && ring[k].hash == BytesValue(md4(VnodeLabel(shard, n / 4)), n % 4)
    {
      hide PointsOf, Tag, Hash, VnodeLabel;
      NoPointsYet(md4, shard);
      var i := 0;
      while i < length
        invariant 0 <= i <= AtLeastZero(length)
        invariant ring == old(ring) + Tag(shard, PointsOf(md4, shard, i))
        decreases length - i
      {
        var digest := md4(VnodeLabel(shard, i));
        ghost var soFar := ring;
        var j := 0;
        while j < REPLICAS
          invariant 0 <= j <= REPLICAS
          invariant ring == soFar + Replicas(md4, shard, i, j)
          decreases REPLICAS - j
        {
          var key := Hash(digest[3 + j * 4], digest[2 + j * 4], digest[1 + j * 4], digest[j * 4]);
          assert Replicas(md4, shard, i, j + 1) == Replicas(md4, shard, i, j) + [RingElement(key, shard)];
          ring := ring + [RingElement(key, shard)];
          j := j + 1;
        }
        PointsOfOneMore(md4, shard, i);
        i := i + 1;
      }
      TaggedPoints(md4, shard, AtLeastZero(length));
    }

    method GenerateContinuum()
      requires ring == []
      modifies this`ring
      ensures if nodes == map[] then ring == [] else Valid()
    {
      if |nodes| == 0 {
        return;
      }

      var total := 0;
      var rest := nodes.Keys;
      while rest != {}
        invariant rest <= nodes.Keys
        invariant ring == []
        invariant total + Sum(rest, WeightOf(nodes)) == TotalWeight(nodes)
        decreases rest
      {
        var shard :| shard in rest;
        SumRemove(rest, shard, WeightOf(nodes));
        total := total + nodes[shard].weight;
        rest := rest - {shard};
      }

      rest := nodes.Keys;
      assert forall e: RingElement :: e.shard !in nodes ==> Multiplicity(md4, share, nodes, e) == 0;
      while rest != {}
        invariant rest <= nodes.Keys
        invariant forall e :: multiset(ring)[e] == if e.shard in rest then 0 else Multiplicity(md4, share, nodes, e)
        decreases rest
      {
        var shard :| shard in rest;
        var node := nodes[shard];
        var vnodes := if node.vnodes != 0 then node.vnodes else DEFAULT_VNODES;
        var length := share(node.weight, total, |nodes|);
        if 0 != vnodes && vnodes != DEFAULT_VNODES {
          length := vnodes;
        }

        PushPoints(shard, length);
        forall e
          ensures multiset(ring)[e] == if e.shard in rest - {shard} then 0 else Multiplicity(md4, share, nodes, e)
        {
          TagMultiset(shard, ShardPoints(md4, share, nodes, shard), e);
        }
        rest := rest - {shard};
      }

      var sorted := StableSort(ring);
      ring := sorted;
    }

    /** The search keeps `low` and `high` in range and closes in on them until it returns. */
    method Find(hashValue: Word) returns (index: int)
      requires SortedByHash(ring)
      ensures index == SuccessorIndex(ring, hashValue)
    {
      var size := |ring|;
      var low, high := 0, size;
      var prev: Word := 0;
      while true
        invariant 0 <= low <= high <= size
        invariant forall i :: 0 <= i < low ==> ring[i].hash < hashValue
        invariant high < size ==> hashValue <= ring[high].hash
        decreases high - low
      {
        var mid := (low + high) / 2;
        if mid == size {
          return 0;
        }
        var middle := ring[mid].hash;
        prev := if 0 == mid then 0 else ring[mid - 1].hash;
        if hashValue <= middle && hashValue > prev {
          return mid;
        }
        if middle < hashValue {
          low := mid + 1;
        } else {
          high := mid - 1;
        }
        if low > high {
          return 0;
        }
      }
    }

    /**
     The node is read with a map subscript that would create a missing shard; it never does,
     because every shard on the ring is a configured one.
     */
    method Get(key: string) returns (node: Node)
      requires Valid() && ring != []
      ensures Owner(ring, HashOfKey(md4, key)) in nodes
      ensures node == nodes[Owner(ring, HashOfKey(md4, key))]
      ensures HashOfKey(md4, key) == BytesValue(md4(key), 0)
    {
      DigestWordBytes(md4(key), 0);
      var index := Find(HashOfKey(md4, key));
      RingShardsAreNodes(md4, share, nodes, ring, index);
      node := nodes[ring[index].shard];
    }
  }

  lemma RingShardsAreNodes(md4: Md4, share: Share, nodes: map<string, Node>, ring: seq<RingElement>, i: nat)
    requires IsRing(md4, share, nodes, ring) && i < |ring|
    ensures ring[i].shard in nodes
  {
    assert ring[i] in multiset(ring);
    assert Multiplicity(md4, share, nodes, ring[i]) > 0;
  }
}
