/**
 Collecting what each member of a set contributes.
 */
module Gathering {
  import opened Collections

  ghost function Gather<K, T>(s: set<K>, f: K -> multiset<T>): multiset<T> {
    if s == {} then multiset{} else
    var x :| x in s;
    f(x) + Gather(s - {x}, f)
  }

  lemma {:induction false} GatherRemove<K, T>(s: set<K>, x: K, f: K -> multiset<T>)
    requires x in s
    ensures Gather(s, f) == f(x) + Gather(s - {x}, f)
    decreases s
  {
    var y :| y in s && Gather(s, f) == f(y) + Gather(s - {y}, f);
    if y != x {
      GatherRemove(s - {y}, x, f);
      GatherRemove(s - {x}, y, f);
      assert s - {y} - {x} == s - {x} - {y};
    }
  }

  lemma {:induction false} GatherSize<K, T>(s: set<K>, f: K -> multiset<T>, size: K -> int)
    requires forall x :: x in s ==> |f(x)| == size(x)
    ensures |Gather(s, f)| == Sum(s, size)
    decreases s
  {
    if s != {} {
      var x :| x in s;
      GatherRemove(s, x, f);
      SumRemove(s, x, size);
      GatherSize(s - {x}, f, size);
    }
  }

  lemma NothingToGather<K, T>(f: K -> multiset<T>)
    ensures Gather({}, f) == multiset{}
  {
  }

  function Falls<T, D(==)>(of: T -> D, d: D): T -> bool {
    (e: T) => of(e) == d
  }

  function Misses<T, D(==)>(of: T -> D, d: D): T -> bool {
    (e: T) => of(e) != d
  }

  /** The entries of the log that fall to each part. */
  ghost function Portion<T, D>(log: seq<T>, of: T -> D): D -> multiset<T> {
    d => multiset(Filter(log, Falls(of, d)))
  }

  lemma FirstIsMember<T>(log: seq<T>)
    ensures log != [] ==> log[0] in log
  {
  }

  /** Splitting a log by some property of its entries loses and repeats nothing. */
  lemma {:induction false} GatherParts<T(!new), D>(log: seq<T>, of: T -> D, parts: set<D>)
    requires forall e :: e in log ==> of(e) in parts
    ensures Gather(parts, Portion(log, of)) == multiset(log)
    decreases parts
  {
    if parts == {} {
      FirstIsMember(log);
    } else {
      var d :| d in parts;
      var others := Filter(log, Misses(of, d));
      GatherRemove(parts, d, Portion(log, of));
      FilterMembers(log, Misses(of, d));
      forall e | e in others
        ensures of(e) in parts - {d}
      {
        assert e in log && Misses(of, d)(e);
      }
      GatherParts(others, of, parts - {d});
      forall c | c in parts - {d}
        ensures Portion(others, of)(c) == Portion(log, of)(c)
      {
        OthersPortion(log, of, d, c);
      }
      GatherSame(parts - {d}, Portion(others, of), Portion(log, of));
      FilterPartition(log, Falls(of, d), Misses(of, d));
    }
  }

  lemma OthersPortion<T, D>(log: seq<T>, of: T -> D, d: D, c: D)
    requires c != d
    ensures Filter(Filter(log, Misses(of, d)), Falls(of, c)) == Filter(log, Falls(of, c))
  {
    FilterTwice(log, Misses(of, d), Falls(of, c));
    FilterSame(log, x => Misses(of, d)(x) && Falls(of, c)(x), Falls(of, c));
  }

  lemma {:induction false} GatherSame<K, T>(s: set<K>, f: K -> multiset<T>, g: K -> multiset<T>)
    requires forall x :: x in s ==> f(x) == g(x)
    ensures Gather(s, f) == Gather(s, g)
    decreases s
  {
    if s != {} {
      var x :| x in s;
      GatherRemove(s, x, f);
      GatherRemove(s, x, g);
      GatherSame(s - {x}, f, g);
    }
  }

  lemma {:induction false} FilterPartition<T>(log: seq<T>, p: T -> bool, q: T -> bool)
    requires forall e :: e in log ==> p(e) != q(e)
    ensures multiset(Filter(log, p)) + multiset(Filter(log, q)) == multiset(log)
  {
    if log != [] {
      var front, last := log[..|log| - 1], log[|log| - 1];
      assert log == front + [last];
      assert forall e :: e in front ==> e in log;
      FilterPartition(front, p, q);
      FilterSnoc(front, last, p);
      FilterSnoc(front, last, q);
      hide Filter;
    }
  }
}
