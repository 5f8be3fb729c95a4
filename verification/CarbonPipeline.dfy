/**
 The Carbon backend fed by the pipeline: every ledger a worker hands over can be sent, and how much
 is sent for it.
 */
module CarbonPipeline {
  import opened Amounts
  import opened CarbonBackendModel
  import opened CarbonContents
  import opened Collections
  import opened Config
  import opened HashRing
  import opened LedgerModel
  import opened LedgerMeaning
  import opened MetricLine
  import opened NameNormaliser
  import opened Pipeline
  import opened PipelineTheorems
  import opened TimerStatistics
  import opened WorkerMachine
  import opened WorkerTheorems

  /**
   Whatever the run, a flushed ledger meets what `Carbon.FlushStats` asks for, and the number of
   lines sent for it follows from its maps and from whether it was fed any line at all.
   */
  lemma EveryFlushCanBeSent(u: Setup, y: System, w: nat, i: nat, p: Printing)
    requires Fits(u) && RunReaches(u, y) && w < u.context.config.workers
    ensures |y.workers| == u.context.config.workers
    ensures i < |y.workers[w].flushes| ==>
              && |y.workers[w].history.segments| == |y.workers[w].flushes|
              && var b := y.workers[w].flushes[i].ledger;
                 && b.counters.Keys <= b.counterRates.Keys
                 && |AllLines(u.context.config, p, b, w)|
                    == 2 * |b.counters| + Sum(b.timers.Keys, Figures(b)) + |b.gauges| + |b.sets|
                       + if y.workers[w].history.segments[i] == [] then 3 else 4
  {
    hide AllLines, Inv, RunReaches, Reachable, Sum;
    WorkerReachable(u, y, w);
    if i < |y.workers[w].flushes| {
      FlushSent(u.context, y.workers[w], i, p, w);
    }
  }

  lemma FlushSent(c: Context, s: WorkerState, i: nat, p: Printing, flusherId: int)
    requires c.config.WellFormed() && Reachable(c, s) && i < |s.flushes|
    ensures |s.history.segments| == |s.flushes|
    ensures var b := s.flushes[i].ledger;
            && b.counters.Keys <= b.counterRates.Keys
            && |AllLines(c.config, p, b, flusherId)|
               == 2 * |b.counters| + Sum(b.timers.Keys, Figures(b)) + |b.gauges| + |b.sets|
                  + if s.history.segments[i] == [] then 3 else 4
  {
    hide AllLines, LedgerMatches, InOrder, FlushersJoined, InterruptsCover, PublishedMatches, LastSegmentIsCurrent,
      SubmissionsCounted, SegmentsNotEmpty, BookOf, ProcessBook, CopyBook, Reachable, Sum;
    ReachableInv(c, s);
    var segment := s.history.segments[i];
    var b := s.flushes[i].ledger;
    LedgerOrder.SnapshotComplete(c.config, segment, s.flushes[i].elapsed);
    LineCount(c.config, p, b, flusherId);
    assert PROCESSING_TIME[0] != METRICS_PROCESSED[0];
    assert |b.statsdMetrics| == |b.statsdMetrics.Keys|;
  }

  // ---------- what it says ----------

  /** The amount over the number of seconds between two flushes. */
  function PerSecond(amount: Stat, seconds: int): Stat
    requires seconds >= 1
  {
    if amount.Num? then Num(amount.value / seconds as real) else NotFinite
  }

  lemma RateIs(rate: Stat, amount: Stat, seconds: int)
    requires seconds >= 1 && Product(rate, Num(seconds as real)) == amount
    ensures rate == PerSecond(amount, seconds)
  {
    if amount.Num? {
      assert rate.value * seconds as real == amount.value;
      Divided(rate.value, seconds as real, amount.value);
    }
  }

  lemma Divided(x: real, y: real, z: real)
    requires y > 0.0 && x * y == z
    ensures x == z / y
  {
  }

  /** The figures of a ledger handed over, in terms of the lines it was fed. */
  lemma SnapshotFigures(c: Context, lines: seq<string>, elapsed: int, k: string)
    requires c.config.WellFormed()
    ensures Buffered(BookOf(c.config.BadLinesKey(), lines))
    ensures var b, key := Snapshot(c, lines, elapsed), c.config.BadLinesKey();
            && (k in b.counters <==> Filter(lines, CountedBy(key, k)) != [])
            && Get(b.counters, k, ZERO) == Sigma(lines, CounterParts(key, k))
            && (k in b.counters ==>
                  k in b.counterRates && b.counterRates[k] == PerSecond(b.counters[k], c.config.frequency))
            && b.gauges == BookOf(key, lines).gauges
            && (k in b.sets <==> Filter(lines, FedBy(Unique, k)) != [])
            && Get(b.sets, k, {}) == set text | text in Image(Filter(lines, FedBy(Unique, k)), LineText())
  {
    var key := c.config.BadLinesKey();
    hide BookOf, ProcessBook, CopyBook, Buffered, Sigma, Filter, Image, CountedBy, CounterParts, FedBy, TimerParts,
      LineValue, LineText, TimerEntries;
    LedgerOrder.SnapshotComplete(c.config, lines, elapsed);
    CountersMean(key, lines, k);
    SetsMean(key, lines, k);
    var b := Snapshot(c, lines, elapsed);
    if k in b.counters {
      RateIs(b.counterRates[k], b.counters[k], c.config.frequency);
    }
  }

  ghost function TimerFigures(config: AggregatorConfig, values: seq<real>, count: Stat): map<string, Stat>
    requires config.WellFormed() && values != []
  {
    TimerEntries(config.threshold, values, count, config.percentiles)
  }

  /** The samples and the count a snapshot has for a timer. */
  lemma SnapshotSamples(c: Context, lines: seq<string>, elapsed: int, k: string)
    requires c.config.WellFormed()
    ensures Buffered(BookOf(c.config.BadLinesKey(), lines))
    ensures var b, mine := Snapshot(c, lines, elapsed), Filter(lines, FedBy(Timer, k));
            && (k in b.timers <==> mine != []) && b.timers.Keys == b.timerCounters.Keys == b.timerData.Keys
            && Get(b.timers, k, []) == Image(mine, LineValue())
            && Get(b.timerCounters, k, ZERO) == Sigma(lines, TimerParts(k))
  {
    hide BookOf, ProcessBook, CopyBook, Buffered, Sigma, Filter, Image, FedBy, TimerParts, LineValue, TimerEntries;
    LedgerOrder.SnapshotComplete(c.config, lines, elapsed);
    TimersMean(c.config.BadLinesKey(), lines, k);
  }

  lemma SnapshotEntries(c: Context, lines: seq<string>, elapsed: int, k: string)
    requires c.config.WellFormed()
    ensures Buffered(BookOf(c.config.BadLinesKey(), lines))
    ensures var b := Snapshot(c, lines, elapsed);
            k in b.timerData ==>
              && k in b.timers && k in b.timerCounters && b.timers[k] != []
              && b.timerData[k] == TimerFigures(c.config, b.timers[k], b.timerCounters[k])
  {
    hide BookOf, ProcessBook, CopyBook, Buffered, TimerEntries;
    LedgerOrder.SnapshotComplete(c.config, lines, elapsed);
  }

  /**
   For each counter line of the segment its counter goes to the owner of its name: the sum over the
   segment's lines, and that for each second of the interval.
   */
  lemma CounterSent(c: Context, lines: seq<string>, elapsed: int, p: Printing, flusherId: int,
                    route: string -> Hostport, stats: map<Hostport, string>, k: string)
    requires c.config.WellFormed() && Buffered(BookOf(c.config.BadLinesKey(), lines))
    requires Built(c.config, p, Snapshot(c, lines, elapsed), flusherId, route, stats)
    requires Filter(lines, CountedBy(c.config.BadLinesKey(), k)) != []
    ensures var name := c.config.prefix + c.config.prefixCounter + ProcessName(k);
            var count := Sigma(lines, CounterParts(c.config.BadLinesKey(), k));
            && Says(route, stats, k, Figure(name + ".rate", p.decimal(PerSecond(count, c.config.frequency)), p))
            && Says(route, stats, k, Figure(name + ".count", p.decimal(count), p))
  {
    hide Built, Says, Figure, BookOf, Buffered, Snapshot, Sigma, Filter, ProcessName, CountedBy, CounterParts,
      PerSecond;
    var b := Snapshot(c, lines, elapsed);
    SnapshotFigures(c, lines, elapsed, k);
    assert b.counters[k] == Get(b.counters, k, ZERO);
    CounterSaid(c.config, p, b, flusherId, route, stats, k);
  }

  /** A gauge goes out with the value its segment's ledger ends with. */
  lemma GaugeSent(c: Context, lines: seq<string>, elapsed: int, p: Printing, flusherId: int,
                  route: string -> Hostport, stats: map<Hostport, string>, k: string)
    requires c.config.WellFormed() && Buffered(BookOf(c.config.BadLinesKey(), lines))
    requires Built(c.config, p, Snapshot(c, lines, elapsed), flusherId, route, stats)
    requires k in BookOf(c.config.BadLinesKey(), lines).gauges
    ensures var name := c.config.prefix + c.config.prefixGauge + ProcessName(k);
            Says(route, stats, k,
                 Figure(name, p.decimal(Num(BookOf(c.config.BadLinesKey(), lines).gauges[k])), p))
  {
    hide Built, Says, Figure, BookOf, Buffered, Snapshot, Sigma, Filter, ProcessName, CountedBy, CounterParts,
      PerSecond;
    SnapshotFigures(c, lines, elapsed, k);
    GaugeSaid(c.config, p, Snapshot(c, lines, elapsed), flusherId, route, stats, k);
  }

  /** A set goes out with the number of different texts it was sent. */
  lemma SetSent(c: Context, lines: seq<string>, elapsed: int, p: Printing, flusherId: int,
                route: string -> Hostport, stats: map<Hostport, string>, k: string)
    requires c.config.WellFormed() && Buffered(BookOf(c.config.BadLinesKey(), lines))
    requires Built(c.config, p, Snapshot(c, lines, elapsed), flusherId, route, stats)
    requires Filter(lines, FedBy(Unique, k)) != []
    ensures var name := c.config.prefix + c.config.prefixSet + ProcessName(k);
            var texts := set text | text in Image(Filter(lines, FedBy(Unique, k)), LineText());
            Says(route, stats, k, Figure(name + ".count", p.whole(|texts|), p))
  {
    hide Built, Says, Figure, BookOf, Buffered, Snapshot, Sigma, Filter, ProcessName, CountedBy, CounterParts,
      PerSecond, FedBy, Image, LineText;
    var b := Snapshot(c, lines, elapsed);
    SnapshotFigures(c, lines, elapsed, k);
    assert b.sets[k] == Get(b.sets, k, {});
    SetSaid(c.config, p, b, flusherId, route, stats, k);
  }

  lemma SnapshotFiguresOf(c: Context, lines: seq<string>, elapsed: int, k: string, values: seq<real>, count: Stat)
    requires c.config.WellFormed() && Buffered(BookOf(c.config.BadLinesKey(), lines))
    requires values == Image(Filter(lines, FedBy(Timer, k)), LineValue()) && count == Sigma(lines, TimerParts(k))
    requires values != []
    ensures var b := Snapshot(c, lines, elapsed);
            k in b.timerData && b.timerData[k] == TimerFigures(c.config, values, count)
  {
    hide BookOf, Buffered, Snapshot, Sigma, Filter, FedBy, LineValue, TimerParts, TimerFigures;
    var b := Snapshot(c, lines, elapsed);
    SnapshotSamples(c, lines, elapsed, k);
    SnapshotEntries(c, lines, elapsed, k);
    assert |values| == |Filter(lines, FedBy(Timer, k))|;
    assert b.timers[k] == Get(b.timers, k, []) && b.timerCounters[k] == Get(b.timerCounters, k, ZERO);
  }

  /** Each figure of a timer goes out under its own name, worked out from its samples and their weight. */
  lemma TimerSent(c: Context, lines: seq<string>, elapsed: int, p: Printing, flusherId: int,
                  route: string -> Hostport, stats: map<Hostport, string>, k: string, values: seq<real>, count: Stat)
    requires c.config.WellFormed() && Buffered(BookOf(c.config.BadLinesKey(), lines))
    requires Built(c.config, p, Snapshot(c, lines, elapsed), flusherId, route, stats)
    requires values == Image(Filter(lines, FedBy(Timer, k)), LineValue()) && count == Sigma(lines, TimerParts(k))
    requires values != []
    ensures var name := c.config.prefix + c.config.prefixTimer + ProcessName(k);
            var data := TimerFigures(c.config, values, count);
            forall figure :: figure in data ==>
              Says(route, stats, k, Figure(name + "." + figure, p.decimal(data[figure]), p))
  {
    hide Built, Says, Figure, BookOf, Buffered, Snapshot, Sigma, Filter, Image, ProcessName, FedBy, LineValue,
      TimerParts, TimerFigures;
    SnapshotFiguresOf(c, lines, elapsed, k, values, count);
    var b := Snapshot(c, lines, elapsed);
    forall figure | figure in b.timerData[k]
      ensures var name := c.config.prefix + c.config.prefixTimer + ProcessName(k);
              Says(route, stats, k, Figure(name + "." + figure, p.decimal(b.timerData[k][figure]), p))
    {
      TimerSaid(c.config, p, b, flusherId, route, stats, k, figure);
    }
  }

  /** The number of lines taken in goes out if there were any, and how long processing them took. */
  lemma StatusSent(c: Context, lines: seq<string>, elapsed: int, p: Printing, flusherId: int,
                   route: string -> Hostport, stats: map<Hostport, string>)
    requires c.config.WellFormed() && Buffered(BookOf(c.config.BadLinesKey(), lines))
    requires Built(c.config, p, Snapshot(c, lines, elapsed), flusherId, route, stats)
    ensures var prefix := c.config.name + ".thread_" + p.whole(flusherId);
            && (lines != [] ==>
                  Says(route, stats, prefix + ".metrics_processed",
                       Figure(prefix + ".metrics_processed", p.whole(|lines|), p)))
            && Says(route, stats, prefix + ".processing_time",
                    Figure(prefix + ".processing_time", p.whole(elapsed), p))
  {
    hide Built, Says, Figure, BookOf, ProcessBook, CopyBook, Buffered, TimerEntries;
    LedgerOrder.SnapshotComplete(c.config, lines, elapsed);
    var b, prefix := Snapshot(c, lines, elapsed), c.config.name + ".thread_" + p.whole(flusherId);
    assert "." + "metrics_processed" == ".metrics_processed" && "." + "processing_time" == ".processing_time";
    hide TimerFigures, Snapshot;
    if lines != [] {
      StatusSaid(c.config, p, b, flusherId, route, stats, "metrics_processed");
    }
    StatusSaid(c.config, p, b, flusherId, route, stats, "processing_time");
  }
}
