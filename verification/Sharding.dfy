/**
 Splitting a stream of lines over several ledgers by metric name, and putting the ledgers together
 again. Nothing is lost, nothing is counted twice, and no name is in two ledgers.
 */
module Sharding {
  import opened Amounts
  import opened Collections
  import opened MetricLine
  import opened LedgerModel
  import opened LedgerMeaning

  // ---------- merging ----------

  function MergeWith<K, V>(m: map<K, V>, n: map<K, V>, op: (V, V) -> V): map<K, V> {
    map k | k in m.Keys + n.Keys :: if k !in n then m[k] else if k !in m then n[k] else op(m[k], n[k])
  }

  function AddInts(m: map<string, int>, n: map<string, int>): map<string, int> {
    MergeWith(m, n, (a, b) => a + b)
  }

  function AddStats(m: map<string, Stat>, n: map<string, Stat>): map<string, Stat> {
    MergeWith(m, n, PlusOp())
  }

  function JoinTimers(m: map<string, seq<real>>, n: map<string, seq<real>>): map<string, seq<real>> {
    MergeWith(m, n, (a, b) => a + b)
  }

  function JoinSets(m: map<string, set<string>>, n: map<string, set<string>>): map<string, set<string>> {
    MergeWith(m, n, (a, b) => a + b)
  }

  /** One ledger for two: sums, concatenations and unions. A gauge of the second wins. */
  function Merge(a: Book, b: Book): Book {
    Book(AddInts(a.frequency, b.frequency),
         AddStats(a.counters, b.counters),
         JoinTimers(a.timers, b.timers),
         AddStats(a.timerCounters, b.timerCounters),
         a.gauges + b.gauges,
         JoinSets(a.sets, b.sets),
         a.counterRates + b.counterRates,
         a.timerData + b.timerData,
         AddInts(a.statsdMetrics, b.statsdMetrics))
  }

  function MergeAll(books: seq<Book>): Book {
    if books == [] then EMPTY_BOOK else Merge(MergeAll(books[..|books| - 1]), books[|books| - 1])
  }

  // ---------- one more line on either side ----------

  /** Merging after an update on either side is updating after the merge. */
  lemma MergeUpdate<V>(m: map<string, V>, n: map<string, V>, op: (V, V) -> V, k: string, v: V)
    ensures MergeWith(m[k := v], n, op) == MergeWith(m, n, op)[k := if k in n then op(v, n[k]) else v]
    ensures MergeWith(m, n[k := v], op) == MergeWith(m, n, op)[k := if k in m then op(m[k], v) else v]
  {
  }

  function PlusOp(): (Stat, Stat) -> Stat {
    (a, b) => Plus(a, b)
  }

  lemma AddLeft(m: map<string, Stat>, n: map<string, Stat>, k: string, x: Stat)
    ensures AddTo(AddStats(m, n), k, x) == AddStats(AddTo(m, k, x), n)
    ensures AddTo(AddStats(m, n), k, x) == AddStats(m, AddTo(n, k, x))
  {
    var a, b := Get(m, k, ZERO), Get(n, k, ZERO);
    MergeUpdate(m, n, PlusOp(), k, Plus(a, x));
    MergeUpdate(m, n, PlusOp(), k, Plus(b, x));
    assert Get(AddStats(m, n), k, ZERO) == Plus(a, b);
    hide MergeWith;
    PlusRegroup(a, b, x);
  }

  lemma PlusRegroup(a: Stat, b: Stat, x: Stat)
    ensures Plus(Plus(a, b), x) == Plus(Plus(a, x), b) == Plus(a, Plus(b, x))
    ensures Plus(ZERO, x) == x && Plus(a, ZERO) == a
  {
  }

  lemma IncrementLeft(m: map<string, int>, n: map<string, int>, k: string)
    ensures Increment(AddInts(m, n), k) == AddInts(Increment(m, k), n)
    ensures Increment(AddInts(m, n), k) == AddInts(m, Increment(n, k))
  {
  }

  lemma TimersEitherSide(m: map<string, seq<real>>, n: map<string, seq<real>>, p: Parsed)
    ensures p.Accepted? && p.name !in n ==> NextTimers(JoinTimers(m, n), p) == JoinTimers(NextTimers(m, p), n)
    ensures NextTimers(JoinTimers(m, n), p) == JoinTimers(m, NextTimers(n, p))
  {
    if p.Accepted? && p.kind == Timer {
      assert [] + [p.value] == [p.value];
    }
    if p.Accepted? && p.kind == Timer && p.name in m && p.name in n {
      assert m[p.name] + n[p.name] + [p.value] == m[p.name] + (n[p.name] + [p.value]);
    }
  }

  lemma SetsEitherSide(m: map<string, set<string>>, n: map<string, set<string>>, p: Parsed)
    ensures NextSets(JoinSets(m, n), p) == JoinSets(NextSets(m, p), n)
    ensures NextSets(JoinSets(m, n), p) == JoinSets(m, NextSets(n, p))
  {
    if p.Accepted? && p.kind == Unique {
      assert {} + {p.text} == {p.text};
      assert p.name in n ==> n[p.name] + {p.text} == {p.text} + n[p.name];
    }
    if p.Accepted? && p.kind == Unique && p.name in m && p.name in n {
      assert m[p.name] + n[p.name] + {p.text} == m[p.name] + (n[p.name] + {p.text});
      assert m[p.name] + n[p.name] + {p.text} == (m[p.name] + {p.text}) + n[p.name];
    }
  }

  lemma GaugesEitherSide(m: map<string, real>, n: map<string, real>, p: Parsed)
    requires p.Accepted?
    ensures p.name !in n ==> NextGauges(m + n, p) == NextGauges(m, p) + n
    ensures p.name !in m ==> NextGauges(m + n, p) == m + NextGauges(n, p)
  {
  }

  /** The names of metrics a ledger has heard of, leaving aside the bad-lines counter. */
  ghost predicate OnlyNames(b: Book, badLinesKey: string, mine: string -> bool) {
    && (forall k :: k in b.frequency ==> mine(k))
    && (forall k :: k in b.counters ==> mine(k) || k == badLinesKey)
    && (forall k :: k in b.timers ==> mine(k))
    && (forall k :: k in b.timerCounters ==> mine(k))
    && (forall k :: k in b.gauges ==> mine(k))
    && (forall k :: k in b.sets ==> mine(k))
  }

  function Others(mine: string -> bool): string -> bool {
    name => !mine(name)
  }

  lemma OnlyNamesStep(b: Book, badLinesKey: string, mine: string -> bool, p: Parsed)
    requires OnlyNames(b, badLinesKey, mine) && (p.Accepted? ==> mine(p.name))
    ensures OnlyNames(BufferParsed(b, badLinesKey, p), badLinesKey, mine)
  {
  }

  lemma BufferLeft(a: Book, b: Book, badLinesKey: string, mine: string -> bool, p: Parsed)
    requires OnlyNames(b, badLinesKey, Others(mine)) && (p.Accepted? ==> mine(p.name))
    ensures BufferParsed(Merge(a, b), badLinesKey, p) == Merge(BufferParsed(a, badLinesKey, p), b)
  {
    hide AddInts, AddStats, JoinTimers, JoinSets, AddTo, Increment, Weight, Weighted;
    IncrementLeft(a.statsdMetrics, b.statsdMetrics, METRICS_PROCESSED);
    if p.Bad? {
      AddLeft(a.counters, b.counters, badLinesKey, Num(1.0));
    } else {
      IncrementLeft(a.frequency, b.frequency, p.name);
      AddLeft(a.counters, b.counters, p.name, Weighted(p.value, p.rate));
      AddLeft(a.timerCounters, b.timerCounters, p.name, Weight(p.rate));
      TimersEitherSide(a.timers, b.timers, p);
      SetsEitherSide(a.sets, b.sets, p);
      GaugesEitherSide(a.gauges, b.gauges, p);
    }
  }

  lemma BufferRight(a: Book, b: Book, badLinesKey: string, mine: string -> bool, p: Parsed)
    requires OnlyNames(a, badLinesKey, mine) && (p.Accepted? ==> !mine(p.name))
    ensures BufferParsed(Merge(a, b), badLinesKey, p) == Merge(a, BufferParsed(b, badLinesKey, p))
  {
    hide AddInts, AddStats, JoinTimers, JoinSets, AddTo, Increment, Weight, Weighted;
    IncrementLeft(a.statsdMetrics, b.statsdMetrics, METRICS_PROCESSED);
    if p.Bad? {
      AddLeft(a.counters, b.counters, badLinesKey, Num(1.0));
    } else {
      IncrementLeft(a.frequency, b.frequency, p.name);
      AddLeft(a.counters, b.counters, p.name, Weighted(p.value, p.rate));
      AddLeft(a.timerCounters, b.timerCounters, p.name, Weight(p.rate));
      TimersEitherSide(a.timers, b.timers, p);
      SetsEitherSide(a.sets, b.sets, p);
      GaugesEitherSide(a.gauges, b.gauges, p);
    }
  }

  // ---------- splitting a stream in two ----------

  /** The lines a ledger is given when only some of the arrivals are sent to it. */
  ghost function Share<T>(arrivals: seq<T>, picked: T -> bool, render: T -> string): seq<string> {
    Image(Filter(arrivals, picked), render)
  }

  ghost predicate PickedByName<T(!new)>(picked: T -> bool, render: T -> string, mine: string -> bool) {
    forall x :: Classify(render(x)).Accepted? ==> picked(x) == mine(Classify(render(x)).name)
  }

  function Rest<T>(picked: T -> bool): T -> bool {
    x => !picked(x)
  }

  lemma ShareStep<T>(arrivals: seq<T>, picked: T -> bool, render: T -> string, badLinesKey: string)
    requires arrivals != []
    ensures var front, last := arrivals[..|arrivals| - 1], arrivals[|arrivals| - 1];
            var before := BookOf(badLinesKey, Share(front, picked, render));
            var after := BookOf(badLinesKey, Share(arrivals, picked, render));
            after == if picked(last) then BufferParsed(before, badLinesKey, Classify(render(last))) else before
  {
    hide BufferParsed, Classify;
    var front, last := arrivals[..|arrivals| - 1], arrivals[|arrivals| - 1];
    if picked(last) {
      ImageSnoc(Filter(front, picked), last, render);
      BufferOneMore(EMPTY_BOOK, badLinesKey, Share(front, picked, render), render(last));
    }
  }

  lemma {:induction false} ShareNames<T(!new)>(arrivals: seq<T>, picked: T -> bool, render: T -> string,
                                         mine: string -> bool, badLinesKey: string)
    requires forall x :: picked(x) && Classify(render(x)).Accepted? ==> mine(Classify(render(x)).name)
    ensures OnlyNames(BookOf(badLinesKey, Share(arrivals, picked, render)), badLinesKey, mine)
  {
    hide BufferParsed, BookOf, Classify, OnlyNames, Share;
    if arrivals == [] {
      EmptyShareNames<T>(picked, render, mine, badLinesKey);
    } else {
      var front, last := arrivals[..|arrivals| - 1], arrivals[|arrivals| - 1];
      ShareNames(front, picked, render, mine, badLinesKey);
      ShareStep(arrivals, picked, render, badLinesKey);
      if picked(last) {
        OnlyNamesStep(BookOf(badLinesKey, Share(front, picked, render)), badLinesKey, mine, Classify(render(last)));
      }
    }
  }

  lemma EmptyShareNames<T>(picked: T -> bool, render: T -> string, mine: string -> bool, badLinesKey: string)
    ensures OnlyNames(BookOf(badLinesKey, Share([], picked, render)), badLinesKey, mine)
    ensures BookOf(badLinesKey, Share([], picked, render)) == EMPTY_BOOK
  {
  }

  /** Two ledgers, each fed the lines with its own names, together are the ledger of all the lines. */
  lemma {:induction false} SplitInTwo<T(!new)>(arrivals: seq<T>, picked: T -> bool, render: T -> string,
                                         mine: string -> bool, badLinesKey: string)
    requires PickedByName(picked, render, mine)
    ensures BookOf(badLinesKey, Image(arrivals, render))
         == Merge(BookOf(badLinesKey, Share(arrivals, picked, render)),
                  BookOf(badLinesKey, Share(arrivals, Rest(picked), render)))
  {
    if arrivals == [] {
      EmptyShareNames<T>(picked, render, mine, badLinesKey);
      EmptyShareNames<T>(Rest(picked), render, mine, badLinesKey);
      assert Image(arrivals, render) == [];
      EmptyMerge();
    } else {
      hide BufferParsed, BookOf, Classify, OnlyNames, Share, Merge;
      var front, last := arrivals[..|arrivals| - 1], arrivals[|arrivals| - 1];
      SplitInTwo(front, picked, render, mine, badLinesKey);
      ShareStep(arrivals, picked, render, badLinesKey);
      ShareStep(arrivals, Rest(picked), render, badLinesKey);
      WholeStep(arrivals, render, badLinesKey);
      var p := Classify(render(last));
      var a := BookOf(badLinesKey, Share(front, picked, render));
      var b := BookOf(badLinesKey, Share(front, Rest(picked), render));
      if picked(last) {
        ShareNames(front, Rest(picked), render, Others(mine), badLinesKey);
        BufferLeft(a, b, badLinesKey, mine, p);
      } else {
        ShareNames(front, picked, render, mine, badLinesKey);
        BufferRight(a, b, badLinesKey, mine, p);
      }
    }
  }

  lemma EmptyMerge()
    ensures Merge(EMPTY_BOOK, EMPTY_BOOK) == EMPTY_BOOK
  {
  }

  lemma WholeStep<T>(arrivals: seq<T>, render: T -> string, badLinesKey: string)
    requires arrivals != []
    ensures var front, last := arrivals[..|arrivals| - 1], arrivals[|arrivals| - 1];
            var before := BookOf(badLinesKey, Image(front, render));
            var after := BookOf(badLinesKey, Image(arrivals, render));
            after == BufferParsed(before, badLinesKey, Classify(render(last)))
  {
    hide BufferParsed, Classify;
    var front, last := arrivals[..|arrivals| - 1], arrivals[|arrivals| - 1];
    assert arrivals == front + [last];
    ImageSnoc(front, last, render);
    BufferOneMore(EMPTY_BOOK, badLinesKey, Image(front, render), render(last));
  }

  // ---------- splitting it over any number of ledgers ----------

  function RoutedTo<T>(route: T -> nat, w: nat): T -> bool {
    x => route(x) == w
  }

  function RoutedBelow<T>(route: T -> nat, n: nat): T -> bool {
    x => route(x) < n
  }

  function NameBelow(nameRoute: string -> nat, n: nat): string -> bool {
    name => nameRoute(name) < n
  }

  function NameTo(nameRoute: string -> nat, w: nat): string -> bool {
    name => nameRoute(name) == w
  }

  /** Lines the ledger accepts are routed by their name. */
  ghost predicate RoutedByName<T(!new)>(route: T -> nat, render: T -> string, nameRoute: string -> nat) {
    forall x :: Classify(render(x)).Accepted? ==> route(x) == nameRoute(Classify(render(x)).name)
  }

  ghost function ShardBooks<T>(arrivals: seq<T>, route: T -> nat, render: T -> string, badLinesKey: string, n: nat):
      (books: seq<Book>)
    ensures |books| == n
  {
    seq(n, w requires 0 <= w < n => BookOf(badLinesKey, Share(arrivals, RoutedTo(route, w), render)))
  }

  lemma BelowSplits<T>(arrivals: seq<T>, route: T -> nat, n: nat)
    ensures var below := Filter(arrivals, RoutedBelow(route, n + 1));
            && Filter(below, RoutedBelow(route, n)) == Filter(arrivals, RoutedBelow(route, n))
            && Filter(below, Rest(RoutedBelow(route, n))) == Filter(arrivals, RoutedTo(route, n))
  {
    FilterTwice(arrivals, RoutedBelow(route, n + 1), RoutedBelow(route, n));
    FilterSame(arrivals, x => RoutedBelow(route, n + 1)(x) && RoutedBelow(route, n)(x), RoutedBelow(route, n));
    FilterTwice(arrivals, RoutedBelow(route, n + 1), Rest(RoutedBelow(route, n)));
    FilterSame(arrivals, x => RoutedBelow(route, n + 1)(x) && Rest(RoutedBelow(route, n))(x), RoutedTo(route, n));
  }

  lemma {:induction false} MergeFirst<T(!new)>(arrivals: seq<T>, route: T -> nat, render: T -> string,
                                         nameRoute: string -> nat, badLinesKey: string, n: nat)
    requires RoutedByName(route, render, nameRoute)
    ensures MergeAll(ShardBooks(arrivals, route, render, badLinesKey, n))
         == BookOf(badLinesKey, Share(arrivals, RoutedBelow(route, n), render))
  {
    if n == 0 {
      FilterNone(arrivals, RoutedBelow(route, 0));
      EmptyShareNames<T>(RoutedBelow(route, 0), render, NameBelow(nameRoute, 0), badLinesKey);
    } else {
      hide BookOf, Classify, Merge;
      var books := ShardBooks(arrivals, route, render, badLinesKey, n);
      assert books[..n - 1] == ShardBooks(arrivals, route, render, badLinesKey, n - 1);
      MergeFirst(arrivals, route, render, nameRoute, badLinesKey, n - 1);
      BelowSplits(arrivals, route, n - 1);
      SplitInTwo(Filter(arrivals, RoutedBelow(route, n)), RoutedBelow(route, n - 1), render,
                 NameBelow(nameRoute, n - 1), badLinesKey);
    }
  }

  /** The ledgers of all shards together are the ledger of the whole stream in arrival order. */
  lemma ShardsMerge<T(!new)>(arrivals: seq<T>, route: T -> nat, render: T -> string,
                             nameRoute: string -> nat, badLinesKey: string, n: nat)
    requires RoutedByName(route, render, nameRoute)
    requires forall x :: x in arrivals ==> route(x) < n
    ensures MergeAll(ShardBooks(arrivals, route, render, badLinesKey, n))
         == BookOf(badLinesKey, Image(arrivals, render))
  {
    MergeFirst(arrivals, route, render, nameRoute, badLinesKey, n);
    FilterAll(arrivals, RoutedBelow(route, n));
  }

  /** No two shards share a name, except that each may count bad lines. */
  lemma ShardsDisjoint<T(!new)>(arrivals: seq<T>, route: T -> nat, render: T -> string,
                                nameRoute: string -> nat, badLinesKey: string, v: nat, w: nat)
    requires RoutedByName(route, render, nameRoute) && v != w
    ensures var a := BookOf(badLinesKey, Share(arrivals, RoutedTo(route, v), render));
            var b := BookOf(badLinesKey, Share(arrivals, RoutedTo(route, w), render));
            && a.frequency.Keys !! b.frequency.Keys
            && a.counters.Keys * b.counters.Keys <= {badLinesKey}
            && a.timers.Keys !! b.timers.Keys && a.timerCounters.Keys !! b.timerCounters.Keys
            && a.gauges.Keys !! b.gauges.Keys && a.sets.Keys !! b.sets.Keys
  {
    hide BookOf, Classify, Share;
    ShareNames(arrivals, RoutedTo(route, v), render, NameTo(nameRoute, v), badLinesKey);
    ShareNames(arrivals, RoutedTo(route, w), render, NameTo(nameRoute, w), badLinesKey);
  }
}
