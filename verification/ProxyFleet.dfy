/**
 The proxy together with the aggregators it sends to: two levels of routing by name, and still the
 ledgers of all workers of all aggregators add up to one ledger of the stream.
 */
module ProxyFleet {
  import opened Collections
  import opened Config
  import opened ConsumerObjects
  import opened Gathering
  import opened LedgerMeaning
  import opened LedgerModel
  import opened LedgerOrder
  import opened MetricLine
  import opened Pipeline
  import opened PipelineTheorems
  import opened ProxyMachine
  import opened ProxyTheorems
  import opened Routing
  import opened Text

  import S = Sharding

  /** One aggregator behind the proxy: how it is set up, and the state its own run has reached. */
  datatype Aggregator = Aggregator(setup: Setup, system: System)

  function Bound(d: nat): Datagram -> bool {
    (g: Datagram) => g.destination == d
  }

  /** The lines one datagram is cut into on arrival. */
  function Unpacked(): Datagram -> seq<string> {
    (g: Datagram) => PacketLines(CStr(g.line))
  }

  ghost function Received(s: ProxyState, d: nat): seq<string> {
    Flatten(Image(Filter(s.sent, Bound(d)), Unpacked()))
  }

  function DestinationOf(u: ProxySetup): string -> nat {
    line => if u.destinations == 0 then 0 else u.hash(RoutingPrefix(line)) % u.destinations
  }

  function OwnerAggregator(u: ProxySetup): string -> nat {
    name => if u.destinations == 0 then 0 else u.hash(name) % u.destinations
  }

  /** What the network may do: deliver the datagrams in any order, but all of them. */
  ghost predicate Delivered(s: ProxyState, fleet: seq<Aggregator>) {
    forall d :: 0 <= d < |fleet| ==> multiset(fleet[d].system.consumed) == multiset(Received(s, d))
  }

  ghost predicate FleetRuns(fleet: seq<Aggregator>, badLinesKey: string) {
    forall d :: 0 <= d < |fleet| ==>
      && Fits(fleet[d].setup) && fleet[d].setup.context.config.BadLinesKey() == badLinesKey
      && RunReaches(fleet[d].setup, fleet[d].system) && Drained(fleet[d].system)
  }

  /** The ledgers of every worker of every aggregator. */
  ghost function FleetBooks(fleet: seq<Aggregator>): (books: seq<Book>)
    ensures |books| == |fleet|
  {
    seq(|fleet|, d requires 0 <= d < |fleet| => S.MergeAll(Ledgers(fleet[d].system)))
  }

  ghost function Inputs(fleet: seq<Aggregator>): (inputs: seq<seq<string>>)
    ensures |inputs| == |fleet|
  {
    seq(|fleet|, d requires 0 <= d < |fleet| => fleet[d].system.consumed)
  }

  // ---------- from the proxy to one aggregator ----------

  lemma OneLinePacket(line: string)
    requires line != "" && '\0' !in line && '\n' !in line
    ensures PacketLines(CStr(line)) == [line]
  {
  }

  /** Plain lines the proxy forwards: what reaches destination `d` is what is routed there. */
  ghost predicate Plain(u: ProxySetup, lines: seq<string>) {
    forall l :: l in lines ==> Forwarded(u)(l) && '\0' !in l && '\n' !in l
  }

  lemma {:induction false} ReceivedIsShare(u: ProxySetup, lines: seq<string>, d: nat)
    requires Plain(u, lines)
    ensures Flatten(Image(Filter(Image(lines, Addressed(u)), Bound(d)), Unpacked()))
         == Filter(lines, S.RoutedTo(DestinationOf(u), d))
  {
    hide FateOf, Flatten, Image, Filter, PacketLines;
    if lines == [] {
      NothingReceived(u, d);
    } else {
      var front, last := lines[..|lines| - 1], lines[|lines| - 1];
      assert lines == front + [last] && last in lines;
      ReceivedIsShare(u, front, d);
      ImageSnoc(front, last, Addressed(u));
      var g := Addressed(u)(last);
      FilterSnoc(Image(front, Addressed(u)), g, Bound(d));
      FilterSnoc(front, last, S.RoutedTo(DestinationOf(u), d));
      ForwardedTo(u, last);
      var before := Filter(Image(front, Addressed(u)), Bound(d));
      ImageSnoc(before, g, Unpacked());
      FlattenSnoc(Image(before, Unpacked()), Unpacked()(g));
      OneLinePacket(last);
    }
  }

  lemma NothingReceived(u: ProxySetup, d: nat)
    ensures Flatten(Image(Filter(Image([], Addressed(u)), Bound(d)), Unpacked())) == []
    ensures Filter([], S.RoutedTo(DestinationOf(u), d)) == []
  {
  }

  lemma ForwardedTo(u: ProxySetup, line: string)
    requires Forwarded(u)(line)
    ensures line != "" && ':' in line && u.destinations > 0
    ensures Addressed(u)(line) == Datagram(DestinationOf(u)(line), line)
  {
    hide RoutingPrefix, Matched;
  }

  // ---------- inside one aggregator ----------

  function Same(): string -> string {
    line => line
  }

  lemma KeptAsTheyAre(config: AggregatorConfig, lines: seq<string>)
    requires forall l :: l in lines ==> ':' in l && '\0' !in l
    ensures Image(lines, Enqueued(config)) == lines
  {
    forall i | 0 <= i < |lines|
      ensures Enqueued(config)(lines[i]) == lines[i]
    {
      assert lines[i] in lines;
    }
  }

  lemma AggregatorBook(a: Aggregator, badLinesKey: string)
    requires Fits(a.setup) && a.setup.context.config.BadLinesKey() == badLinesKey
    requires RunReaches(a.setup, a.system) && Drained(a.system)
    requires forall l :: l in a.system.consumed ==> ':' in l && '\0' !in l
    ensures S.MergeAll(Ledgers(a.system)) == BookOf(badLinesKey, a.system.consumed)
  {
    hide RunReaches, Drained, BookOf, S.MergeAll;
    ShardingTransparent(a.setup, a.system);
    KeptAsTheyAre(a.setup.context.config, a.system.consumed);
  }

  // ---------- all aggregators ----------

  ghost predicate Sorted(u: ProxySetup, inputs: seq<seq<string>>) {
    forall d :: 0 <= d < |inputs| ==> forall l :: l in inputs[d] ==> DestinationOf(u)(l) == d
  }

  lemma {:induction false} FlattenMembers(u: ProxySetup, inputs: seq<seq<string>>, n: nat)
    requires Sorted(u, inputs) && n <= |inputs|
    ensures forall l :: l in Flatten(inputs[..n]) ==> DestinationOf(u)(l) < n
  {
    hide DestinationOf;
    if n > 0 {
      FlattenMembers(u, inputs, n - 1);
      assert inputs[..n][..n - 1] == inputs[..n - 1];
    }
  }

  lemma RoutedByPrefix(u: ProxySetup)
    requires u.destinations > 0
    ensures forall n: nat ::
              S.PickedByName(S.RoutedBelow(DestinationOf(u), n), Same(), S.NameBelow(OwnerAggregator(u), n))
  {
    hide Classify, RoutingPrefix;
    forall n: nat, line: string | Classify(Same()(line)).Accepted?
      ensures S.RoutedBelow(DestinationOf(u), n)(line)
           == S.NameBelow(OwnerAggregator(u), n)(Classify(Same()(line)).name)
    {
      AcceptedShape(line);
    }
  }

  lemma {:induction false} InputsMerge(u: ProxySetup, inputs: seq<seq<string>>, books: seq<Book>, badLinesKey: string,
                                       n: nat)
    requires u.destinations > 0 && Sorted(u, inputs) && |books| == |inputs| && n <= |books|
    requires forall d :: 0 <= d < |books| ==> books[d] == BookOf(badLinesKey, inputs[d])
    ensures S.MergeAll(books[..n]) == BookOf(badLinesKey, Flatten(inputs[..n]))
  {
    hide DestinationOf, OwnerAggregator, S.Merge, BufferLine, S.PickedByName;
    if n > 0 {
      InputsMerge(u, inputs, books, badLinesKey, n - 1);
      assert books[..n][..n - 1] == books[..n - 1];
      hide *;
      LastInputMerges(u, inputs, badLinesKey, n);
    }
  }

  lemma LastInputMerges(u: ProxySetup, inputs: seq<seq<string>>, badLinesKey: string, n: nat)
    requires u.destinations > 0 && Sorted(u, inputs) && 0 < n <= |inputs|
    ensures BookOf(badLinesKey, Flatten(inputs[..n]))
         == S.Merge(BookOf(badLinesKey, Flatten(inputs[..n - 1])), BookOf(badLinesKey, inputs[n - 1]))
  {
    RoutedByPrefix(u);
    var all, picked := Flatten(inputs[..n]), S.RoutedBelow(DestinationOf(u), n - 1);
    hide BookOf, S.RoutedBelow, S.NameBelow, Same, DestinationOf, OwnerAggregator, S.Merge, S.PickedByName, Flatten,
      Filter;
    S.SplitInTwo(all, picked, Same(), S.NameBelow(OwnerAggregator(u), n - 1), badLinesKey);
    LastInputApart(u, inputs, n);
    SameImage(all);
    SameImage(Filter(all, picked));
    SameImage(Filter(all, S.Rest(picked)));
  }

  lemma SameImage(lines: seq<string>)
    ensures Image(lines, Same()) == lines
  {
  }

  lemma LastInputApart(u: ProxySetup, inputs: seq<seq<string>>, n: nat)
    requires Sorted(u, inputs) && 0 < n <= |inputs|
    ensures Filter(Flatten(inputs[..n]), S.RoutedBelow(DestinationOf(u), n - 1)) == Flatten(inputs[..n - 1])
    ensures Filter(Flatten(inputs[..n]), S.Rest(S.RoutedBelow(DestinationOf(u), n - 1))) == inputs[n - 1]
  {
    hide DestinationOf, Filter;
    var picked, front, last := S.RoutedBelow(DestinationOf(u), n - 1), Flatten(inputs[..n - 1]), inputs[n - 1];
    assert inputs[..n][..n - 1] == inputs[..n - 1];
    assert Flatten(inputs[..n]) == front + last;
    hide Flatten;
    FlattenMembers(u, inputs, n - 1);
    FilterAppend(front, last, picked);
    FilterAppend(front, last, S.Rest(picked));
    FilterAll(front, picked);
    FilterNone(last, picked);
    FilterNone(front, S.Rest(picked));
    FilterAll(last, S.Rest(picked));
  }

  /** Together the inputs are the lines below, in some order. */
  lemma {:induction false} InputsCover(u: ProxySetup, lines: seq<string>, inputs: seq<seq<string>>, n: nat)
    requires n <= |inputs|
    requires forall d :: 0 <= d < |inputs| ==>
               multiset(inputs[d]) == multiset(Filter(lines, S.RoutedTo(DestinationOf(u), d)))
    ensures multiset(Flatten(inputs[..n])) == multiset(Filter(lines, S.RoutedBelow(DestinationOf(u), n)))
  {
    hide DestinationOf, Filter;
    if n == 0 {
      FilterNone(lines, S.RoutedBelow(DestinationOf(u), 0));
    } else {
      InputsCover(u, lines, inputs, n - 1);
      assert inputs[..n][..n - 1] == inputs[..n - 1];
      S.BelowSplits(lines, DestinationOf(u), n - 1);
      var below, picked := Filter(lines, S.RoutedBelow(DestinationOf(u), n)), S.RoutedBelow(DestinationOf(u), n - 1);
      FilterPartition(below, picked, S.Rest(picked));
    }
  }

  lemma ForwardedLines(u: ProxySetup, s: ProxyState, d: nat)
    requires ProxyReaches(u, s) && forall l :: l in s.submitted ==> '\n' !in l
    ensures Received(s, d) == Filter(Filter(s.handled, Forwarded(u)), S.RoutedTo(DestinationOf(u), d))
    ensures Plain(u, Filter(s.handled, Forwarded(u)))
  {
    hide ProxyReaches, Held, Filter, Image, Flatten, FateOf, OneThreadInOrder, JudgedMatch;
    ProxyReachesInv(u, s);
    var lines := Filter(s.handled, Forwarded(u));
    FilterMembers(s.handled, Forwarded(u));
    forall l | l in lines
      ensures Forwarded(u)(l) && '\0' !in l && '\n' !in l
    {
      assert l in multiset(s.handled) && l in multiset(s.accepted);
    }
    ReceivedIsShare(u, lines, d);
  }

  lemma InputOfOne(u: ProxySetup, s: ProxyState, fleet: seq<Aggregator>, d: nat)
    requires ProxyReaches(u, s) && (forall l :: l in s.submitted ==> '\n' !in l) && d < |fleet| && Delivered(s, fleet)
    ensures var lines, input := Filter(s.handled, Forwarded(u)), Inputs(fleet)[d];
            && multiset(input) == multiset(Filter(lines, S.RoutedTo(DestinationOf(u), d)))
            && (forall l :: l in input ==> l in lines && DestinationOf(u)(l) == d && ':' in l && '\0' !in l)
  {
    hide ProxyReaches, Received, Filter, Forwarded, DestinationOf;
    ForwardedLines(u, s, d);
    var lines, input := Filter(s.handled, Forwarded(u)), fleet[d].system.consumed;
    FilterMembers(lines, S.RoutedTo(DestinationOf(u), d));
    forall l | l in input
      ensures l in lines && DestinationOf(u)(l) == d && ':' in l && '\0' !in l
    {
      assert l in multiset(input) && l in multiset(Received(s, d));
      ForwardedTo(u, l);
    }
  }

  /** What one ledger for each aggregator, fed its input, would hold. */
  ghost function InputBooks(fleet: seq<Aggregator>, badLinesKey: string): (books: seq<Book>)
    ensures |books| == |fleet|
  {
    seq(|fleet|, d requires 0 <= d < |fleet| => BookOf(badLinesKey, fleet[d].system.consumed))
  }

  lemma InputsTogether(u: ProxySetup, s: ProxyState, fleet: seq<Aggregator>, badLinesKey: string)
    requires ProxyReaches(u, s) && AtRest(s) && forall l :: l in s.submitted ==> '\n' !in l
    requires 0 < u.destinations == |fleet| && Delivered(s, fleet)
    ensures S.MergeAll(InputBooks(fleet, badLinesKey)) == BookOf(badLinesKey, Flatten(Inputs(fleet)))
    ensures multiset(Flatten(Inputs(fleet))) == multiset(Filter(s.accepted, Forwarded(u)))
  {
    hide ProxyReaches, AtRest, BookOf, Received, Filter, Flatten, S.MergeAll, Forwarded, DestinationOf;
    var lines, inputs, books := Filter(s.handled, Forwarded(u)), Inputs(fleet), InputBooks(fleet, badLinesKey);
    forall d | 0 <= d < |fleet|
      ensures multiset(inputs[d]) == multiset(Filter(lines, S.RoutedTo(DestinationOf(u), d)))
      ensures forall l :: l in inputs[d] ==> DestinationOf(u)(l) == d
    {
      InputOfOne(u, s, fleet, d);
    }
    InputsMerge(u, inputs, books, badLinesKey, |fleet|);
    assert books[..|fleet|] == books && inputs[..|fleet|] == inputs;
    InputsCover(u, lines, inputs, |fleet|);
    DestinationsInRange(u);
    FilterAll(lines, S.RoutedBelow(DestinationOf(u), |fleet|));
    RestHandled(u, s);
    FilterPermutation(s.handled, s.accepted, Forwarded(u));
  }

  lemma DestinationsInRange(u: ProxySetup)
    requires u.destinations > 0
    ensures forall l :: DestinationOf(u)(l) < u.destinations
  {
  }

  lemma AggregatorBooks(u: ProxySetup, s: ProxyState, fleet: seq<Aggregator>, badLinesKey: string)
    requires ProxyReaches(u, s) && forall l :: l in s.submitted ==> '\n' !in l
    requires Delivered(s, fleet) && FleetRuns(fleet, badLinesKey)
    ensures FleetBooks(fleet) == InputBooks(fleet, badLinesKey)
  {
    hide ProxyReaches, Delivered, RunReaches, Drained, BookOf, Ledgers, S.MergeAll, Forwarded, DestinationOf;
    forall d | 0 <= d < |fleet|
      ensures FleetBooks(fleet)[d] == InputBooks(fleet, badLinesKey)[d]
    {
      InputOfOne(u, s, fleet, d);
      AggregatorBook(fleet[d], badLinesKey);
    }
  }

  /**
   For any number of proxy threads, aggregators and workers, any interleaving, and datagrams
   delivered in any order: once everything is at rest, with nothing lost and nothing flushed, all
   ledgers merged are one ledger of the forwarded lines, taken in some order.
   */
  lemma FleetMerges(u: ProxySetup, s: ProxyState, fleet: seq<Aggregator>, badLinesKey: string)
    requires ProxyReaches(u, s) && AtRest(s) && (forall l :: l in s.submitted ==> '\n' !in l)
    requires 0 < u.destinations == |fleet| && Delivered(s, fleet) && FleetRuns(fleet, badLinesKey)
    ensures S.MergeAll(FleetBooks(fleet)) == BookOf(badLinesKey, Flatten(Inputs(fleet)))
    ensures multiset(Flatten(Inputs(fleet))) == multiset(Filter(s.accepted, Forwarded(u)))
  {
    hide ProxyReaches, FleetRuns, Delivered, AtRest, BookOf, FleetBooks, InputBooks, Inputs, Filter, Flatten,
      S.MergeAll;
    AggregatorBooks(u, s, fleet, badLinesKey);
    InputsTogether(u, s, fleet, badLinesKey);
  }

  /**
   So after processing, everything but the gauges is what a single ledger fed the accepted lines in
   their own order would hold.
   */
  lemma FleetTransparent(u: ProxySetup, s: ProxyState, fleet: seq<Aggregator>, config: AggregatorConfig, elapsed: int)
    requires ProxyReaches(u, s) && AtRest(s) && forall l :: l in s.submitted ==> '\n' !in l
    requires 0 < u.destinations == |fleet| && Delivered(s, fleet) && FleetRuns(fleet, config.BadLinesKey())
    requires config.WellFormed()
    ensures Buffered(S.MergeAll(FleetBooks(fleet)))
    ensures Buffered(BookOf(config.BadLinesKey(), Filter(s.accepted, Forwarded(u))))
    ensures var a := ProcessBook(S.MergeAll(FleetBooks(fleet)), config, elapsed);
            var b := ProcessBook(BookOf(config.BadLinesKey(), Filter(s.accepted, Forwarded(u))), config, elapsed);
            && a.counters == b.counters && a.counterRates == b.counterRates
            && a.timerCounters == b.timerCounters && a.timerData == b.timerData
            && a.sets == b.sets && a.frequency == b.frequency && a.statsdMetrics == b.statsdMetrics
  {
    hide ProxyReaches, FleetRuns, Delivered, AtRest, BookOf, FleetBooks, Inputs, Filter, Flatten, S.MergeAll,
      Forwarded, ProcessBook, Buffered;
    FleetMerges(u, s, fleet, config.BadLinesKey());
    OrderIndependence(config, Flatten(Inputs(fleet)), Filter(s.accepted, Forwarded(u)), elapsed);
  }

  // ---------- delivery in order ----------

  /** Each aggregator has received its datagrams in the order they were sent. */
  ghost predicate DeliveredInOrder(s: ProxyState, fleet: seq<Aggregator>) {
    forall d :: 0 <= d < |fleet| ==> fleet[d].system.consumed == Received(s, d)
  }

  lemma PrefixDecides(u: ProxySetup)
    requires u.destinations > 0
    ensures S.RoutedByName(DestinationOf(u), Same(), OwnerAggregator(u))
  {
    hide Classify, RoutingPrefix;
    forall line: string | Classify(Same()(line)).Accepted?
      ensures DestinationOf(u)(line) == OwnerAggregator(u)(Classify(Same()(line)).name)
    {
      AcceptedShape(line);
    }
  }

  lemma InputsInOrder(u: ProxySetup, s: ProxyState, fleet: seq<Aggregator>, badLinesKey: string)
    requires ProxyReaches(u, s) && forall l :: l in s.submitted ==> '\n' !in l
    requires 0 < u.destinations == |fleet| && DeliveredInOrder(s, fleet)
    ensures S.MergeAll(InputBooks(fleet, badLinesKey)) == BookOf(badLinesKey, Filter(s.handled, Forwarded(u)))
  {
    hide ProxyReaches, BookOf, Received, Filter, S.MergeAll, S.RoutedByName, Forwarded, DestinationOf, OwnerAggregator;
    var lines := Filter(s.handled, Forwarded(u));
    forall d | 0 <= d < |fleet|
      ensures InputBooks(fleet, badLinesKey)[d]
           == S.ShardBooks(lines, DestinationOf(u), Same(), badLinesKey, |fleet|)[d]
    {
      ForwardedLines(u, s, d);
      SameImage(Filter(lines, S.RoutedTo(DestinationOf(u), d)));
    }
    PrefixDecides(u);
    DestinationsInRange(u);
    S.ShardsMerge(lines, DestinationOf(u), Same(), OwnerAggregator(u), badLinesKey, |fleet|);
    SameImage(lines);
    assert InputBooks(fleet, badLinesKey) == S.ShardBooks(lines, DestinationOf(u), Same(), badLinesKey, |fleet|);
  }

  /** Then the ledgers are exactly that of the forwarded lines as the proxy handled them, gauges included. */
  lemma FleetInHandledOrder(u: ProxySetup, s: ProxyState, fleet: seq<Aggregator>, badLinesKey: string)
    requires ProxyReaches(u, s) && forall l :: l in s.submitted ==> '\n' !in l
    requires 0 < u.destinations == |fleet| && DeliveredInOrder(s, fleet) && FleetRuns(fleet, badLinesKey)
    ensures S.MergeAll(FleetBooks(fleet)) == BookOf(badLinesKey, Filter(s.handled, Forwarded(u)))
  {
    hide ProxyReaches, FleetRuns, BookOf, FleetBooks, InputBooks, Received, Filter, S.MergeAll;
    AggregatorBooks(u, s, fleet, badLinesKey);
    InputsInOrder(u, s, fleet, badLinesKey);
  }

  /**
   So behind a proxy with a single thread and a network that keeps the order, gauges come out right
   as well: everything is as in one ledger fed the accepted lines in their own order.
   */
  lemma SingleThreadFleet(u: ProxySetup, s: ProxyState, fleet: seq<Aggregator>, badLinesKey: string)
    requires ProxyReaches(u, s) && AtRest(s) && u.threads == 1 && forall l :: l in s.submitted ==> '\n' !in l
    requires 0 < u.destinations == |fleet| && DeliveredInOrder(s, fleet) && FleetRuns(fleet, badLinesKey)
    ensures S.MergeAll(FleetBooks(fleet)) == BookOf(badLinesKey, Filter(s.accepted, Forwarded(u)))
  {
    hide ProxyReaches, FleetRuns, DeliveredInOrder, AtRest, BookOf, FleetBooks, S.MergeAll, Filter, Forwarded;
    FleetInHandledOrder(u, s, fleet, badLinesKey);
    RestHandled(u, s);
  }
}
