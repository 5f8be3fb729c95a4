/**
 The proxy and the aggregators behind it while the aggregators flush: what all ledgers they have
 made, flushed or not, hold together.
 */
module FleetFlushes {
  import opened Collections
  import opened Conservation
  import opened GaugeFlushes
  import opened LedgerMeaning
  import opened LedgerMerge
  import opened LedgerModel
  import opened LedgerOrder
  import opened Pipeline
  import opened PipelineTheorems
  import opened ProxyFleet
  import opened ProxyMachine
  import opened ProxyTheorems
  import opened Sharding

  /** Every aggregator has dropped nothing and has nothing left to buffer; it may have flushed. */
  ghost predicate FleetSettles(fleet: seq<Aggregator>, badLinesKey: string) {
    forall d :: 0 <= d < |fleet| ==>
      && Fits(fleet[d].setup) && fleet[d].setup.context.config.BadLinesKey() == badLinesKey
      && RunReaches(fleet[d].setup, fleet[d].system) && Settled(fleet[d].system)
  }

  /** All ledgers of each aggregator, flushed and current. */
  ghost function FleetLedgers(fleet: seq<Aggregator>): (books: seq<Book>)
    ensures |books| == |fleet|
  {
    seq(|fleet|, d requires 0 <= d < |fleet| => MergeAll(BooksOfWorkers(fleet[d].system)))
  }

  lemma AggregatorCores(u: ProxySetup, s: ProxyState, fleet: seq<Aggregator>, badLinesKey: string)
    requires ProxyReaches(u, s) && forall l :: l in s.submitted ==> '\n' !in l
    requires Delivered(s, fleet) && FleetSettles(fleet, badLinesKey)
    ensures Core(MergeAll(FleetLedgers(fleet))) == Core(MergeAll(InputBooks(fleet, badLinesKey)))
  {
    hide ProxyReaches, Delivered, RunReaches, Settled, BookOf, Core, BooksOfWorkers, MergeAll, Forwarded,
      DestinationOf;
    forall d | 0 <= d < |fleet|
      ensures Core(FleetLedgers(fleet)[d]) == Core(InputBooks(fleet, badLinesKey)[d])
    {
      InputOfOne(u, s, fleet, d);
      FlushesTransparent(fleet[d].setup, fleet[d].system);
      KeptAsTheyAre(fleet[d].setup.context.config, fleet[d].system.consumed);
    }
    CoresCongruent(FleetLedgers(fleet), InputBooks(fleet, badLinesKey));
  }

  /**
   For any number of proxy threads, aggregators and workers, any interleaving, any flushes, and
   datagrams delivered in any order: once nothing is under way and nothing was lost, all ledgers
   merged hold the counters, timers and sets of one ledger of the forwarded lines, in some order.
   */
  lemma FlushedFleetMerges(u: ProxySetup, s: ProxyState, fleet: seq<Aggregator>, badLinesKey: string)
    requires ProxyReaches(u, s) && AtRest(s) && forall l :: l in s.submitted ==> '\n' !in l
    requires 0 < u.destinations == |fleet| && Delivered(s, fleet) && FleetSettles(fleet, badLinesKey)
    ensures Core(MergeAll(FleetLedgers(fleet))) == Core(BookOf(badLinesKey, Flatten(Inputs(fleet))))
    ensures multiset(Flatten(Inputs(fleet))) == multiset(Filter(s.accepted, Forwarded(u)))
  {
    hide ProxyReaches, FleetSettles, Delivered, AtRest, BookOf, Core, FleetLedgers, InputBooks, Inputs, Filter, Flatten,
      MergeAll;
    AggregatorCores(u, s, fleet, badLinesKey);
    InputsTogether(u, s, fleet, badLinesKey);
  }

  /** So the counters and sets are those of one ledger fed the accepted lines, and so are the samples of each timer. */
  lemma FlushedFleetTransparent(u: ProxySetup, s: ProxyState, fleet: seq<Aggregator>, badLinesKey: string)
    requires ProxyReaches(u, s) && AtRest(s) && forall l :: l in s.submitted ==> '\n' !in l
    requires 0 < u.destinations == |fleet| && Delivered(s, fleet) && FleetSettles(fleet, badLinesKey)
    ensures var all, one := MergeAll(FleetLedgers(fleet)), BookOf(badLinesKey, Filter(s.accepted, Forwarded(u)));
            && all.counters == one.counters && all.timerCounters == one.timerCounters && all.sets == one.sets
            && all.timers.Keys == one.timers.Keys
            && forall k :: k in all.timers ==> multiset(all.timers[k]) == multiset(one.timers[k])
  {
    hide ProxyReaches, FleetSettles, Delivered, AtRest, BookOf, FleetLedgers, Inputs, Filter, Flatten, MergeAll;
    FlushedFleetMerges(u, s, fleet, badLinesKey);
    var xs, ys := Flatten(Inputs(fleet)), Filter(s.accepted, Forwarded(u));
    CountersOrderFree(badLinesKey, xs, ys);
    TimerCountersOrderFree(badLinesKey, xs, ys);
    SetsOrderFree(badLinesKey, xs, ys);
    forall k
      ensures var a, b := BookOf(badLinesKey, xs), BookOf(badLinesKey, ys);
              && (k in a.timers <==> k in b.timers)
              && multiset(Get(a.timers, k, [])) == multiset(Get(b.timers, k, []))
    {
      TimersOrderFree(badLinesKey, xs, ys, k);
    }
  }

  /** With datagrams delivered in order the samples of each timer come in the order the proxy handled them. */
  lemma FlushedFleetInHandledOrder(u: ProxySetup, s: ProxyState, fleet: seq<Aggregator>, badLinesKey: string)
    requires ProxyReaches(u, s) && forall l :: l in s.submitted ==> '\n' !in l
    requires 0 < u.destinations == |fleet| && DeliveredInOrder(s, fleet) && FleetSettles(fleet, badLinesKey)
    ensures Core(MergeAll(FleetLedgers(fleet))) == Core(BookOf(badLinesKey, Filter(s.handled, Forwarded(u))))
  {
    hide ProxyReaches, FleetSettles, BookOf, Core, FleetLedgers, InputBooks, Received, Filter, MergeAll;
    AggregatorCores(u, s, fleet, badLinesKey);
    InputsInOrder(u, s, fleet, badLinesKey);
  }

  // ---------- gauges ----------

  lemma InputGaugesApart(u: ProxySetup, s: ProxyState, fleet: seq<Aggregator>, badLinesKey: string)
    requires ProxyReaches(u, s) && forall l :: l in s.submitted ==> '\n' !in l
    requires 0 < u.destinations == |fleet| && DeliveredInOrder(s, fleet)
    ensures GaugesApart(InputBooks(fleet, badLinesKey))
  {
    hide ProxyReaches, BookOf, Filter, Received, Forwarded, DestinationOf, OwnerAggregator, RoutedByName;
    PrefixDecides(u);
    var lines := Filter(s.handled, Forwarded(u));
    forall d | 0 <= d < |fleet|
      ensures fleet[d].system.consumed == Share(lines, RoutedTo(DestinationOf(u), d), Same())
    {
      ForwardedLines(u, s, d);
      SameImage(Filter(lines, RoutedTo(DestinationOf(u), d)));
    }
    forall d, e | 0 <= d < e < |fleet|
      ensures BookOf(badLinesKey, fleet[d].system.consumed).gauges.Keys
           !! BookOf(badLinesKey, fleet[e].system.consumed).gauges.Keys
    {
      ShardsDisjoint(lines, DestinationOf(u), Same(), OwnerAggregator(u), badLinesKey, d, e);
    }
  }

  /** With datagrams delivered in order the gauges are right too if and only if no worker's flushes lose one. */
  lemma FlushedFleetGaugesIff(u: ProxySetup, s: ProxyState, fleet: seq<Aggregator>, badLinesKey: string)
    requires ProxyReaches(u, s) && forall l :: l in s.submitted ==> '\n' !in l
    requires 0 < u.destinations == |fleet| && DeliveredInOrder(s, fleet) && FleetSettles(fleet, badLinesKey)
    ensures MergeAll(FleetLedgers(fleet)).gauges == BookOf(badLinesKey, Filter(s.handled, Forwarded(u))).gauges
       <==> forall d :: 0 <= d < |fleet| ==> NoGaugeLost(fleet[d].system)
  {
    hide ProxyReaches, RunReaches, Settled, BookOf, BooksOfWorkers, Received, Filter, MergeAll, Forwarded,
      DestinationOf, NoGaugeLost, GaugesApart;
    forall d | 0 <= d < |fleet|
      ensures FleetLedgers(fleet)[d].gauges.Keys == InputBooks(fleet, badLinesKey)[d].gauges.Keys
      ensures FleetLedgers(fleet)[d].gauges == InputBooks(fleet, badLinesKey)[d].gauges
         <==> NoGaugeLost(fleet[d].system)
    {
      InputOfOne(u, s, fleet, d);
      SystemGaugesIff(fleet[d].setup, fleet[d].system);
      KeptAsTheyAre(fleet[d].setup.context.config, fleet[d].system.consumed);
    }
    InputGaugesApart(u, s, fleet, badLinesKey);
    MergedSameIff(FleetLedgers(fleet), InputBooks(fleet, badLinesKey));
    InputsInOrder(u, s, fleet, badLinesKey);
  }
}
