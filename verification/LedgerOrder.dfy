/**
 Two consequences of what a ledger means: a processed ledger is complete, so that the backends'
 look-ups never miss; and only gauges depend on the order the lines came in.
 */
module LedgerOrder {
  import opened Amounts
  import opened Collections
  import opened Config
  import opened MetricLine
  import opened TimerStatistics
  import opened LedgerModel
  import opened LedgerMeaning

  // ---------- processed ledgers are complete ----------

  lemma NamedLinesHaveNames(lines: seq<string>, kind: Kind)
    ensures Filter(lines, FedBy(kind, "")) == []
  {
    hide Classify;
    forall line | line in lines
      ensures !FedBy(kind, "")(line)
    {
      if Classify(line).Accepted? {
        AcceptedShape(line);
      }
    }
    FilterNone(lines, FedBy(kind, ""));
  }

  /** `process` can be called after any stream, and never meets the empty name. */
  lemma BufferedBook(badLinesKey: string, lines: seq<string>)
    ensures Buffered(BookOf(badLinesKey, lines))
    ensures "" !in BookOf(badLinesKey, lines).timers
  {
    hide *;
    forall k
      ensures var b := BookOf(badLinesKey, lines);
              (k in b.timers <==> k in b.timerCounters) && (k in b.timers ==> b.timers[k] != [])
    {
      BufferedTimer(badLinesKey, lines, k);
    }
    BufferedByKeys(BookOf(badLinesKey, lines));
    TimersMean(badLinesKey, lines, "");
    NamedLinesHaveNames(lines, Timer);
  }

  lemma BufferedByKeys(b: Book)
    requires forall k :: (k in b.timers <==> k in b.timerCounters) && (k in b.timers ==> b.timers[k] != [])
    ensures Buffered(b)
  {
  }

  lemma BufferedTimer(badLinesKey: string, lines: seq<string>, k: string)
    ensures var b := BookOf(badLinesKey, lines);
            (k in b.timers <==> k in b.timerCounters) && (k in b.timers ==> b.timers[k] != [])
  {
    hide BookOf, FedBy, LineValue, TimerParts;
    TimersMean(badLinesKey, lines, k);
    var mine := Filter(lines, FedBy(Timer, k));
    assert |Image(mine, LineValue())| == |mine|;
  }

  /**
   A ledger handed to a backend has a rate for each counter and figures for each timer, so that the
   `at(key)` look-ups of the backends succeed, and the branch for nameless timers is never taken.
   */
  lemma SnapshotComplete(config: AggregatorConfig, lines: seq<string>, elapsed: int)
    requires config.WellFormed()
    ensures Buffered(BookOf(config.BadLinesKey(), lines))
    ensures var b := BookOf(config.BadLinesKey(), lines);
            var p := CopyBook(ProcessBook(b, config, elapsed));
            && p.counterRates.Keys == p.counters.Keys
            && (forall k :: k in p.counters ==>
                  Product(p.counterRates[k], Num(config.frequency as real)) == p.counters[k])
            && p.timerData.Keys == p.timers.Keys == p.timerCounters.Keys
            && (forall k :: k in p.timers ==>
                  && k != "" && p.timers[k] != []
                  && p.timerData[k]
                     == TimerEntries(config.threshold, p.timers[k], p.timerCounters[k], config.percentiles))
            && p.counters == b.counters && p.timers == b.timers && p.timerCounters == b.timerCounters
            && p.gauges == b.gauges && p.sets == b.sets
            && Get(p.statsdMetrics, METRICS_PROCESSED, 0) == |lines|
            && Get(p.statsdMetrics, "processing_time", 0) == elapsed
            && p.statsdMetrics.Keys == {PROCESSING_TIME} + if lines == [] then {} else {METRICS_PROCESSED}
  {
    hide BookOf, Rates, AllTimerEntries, TimerEntries;
    var b := BookOf(config.BadLinesKey(), lines);
    BufferedBook(config.BadLinesKey(), lines);
    LinesAccountedFor(config.BadLinesKey(), lines);
    ProcessedFields(b, config, elapsed);
    ProcessedCount(b.statsdMetrics, elapsed);
  }

  /** A nameless timer, which no stream of lines gives rise to, would get two zeros. */
  lemma NamelessTimer(b: Book, config: AggregatorConfig, elapsed: int)
    requires Buffered(b) && config.WellFormed() && "" in b.timers
    ensures ProcessBook(b, config, elapsed).timerData[""] == map["count" := Num(0.0), "count_ps" := Num(0.0)]
  {
    hide TimerEntries;
  }

  lemma ProcessedCount(m: map<string, int>, elapsed: int)
    requires m.Keys <= {METRICS_PROCESSED}
    ensures Get(m[PROCESSING_TIME := elapsed], METRICS_PROCESSED, 0) == Get(m, METRICS_PROCESSED, 0)
    ensures m[PROCESSING_TIME := elapsed].Keys == {PROCESSING_TIME} + m.Keys
  {
    assert PROCESSING_TIME[0] != METRICS_PROCESSED[0];
  }

  lemma ProcessedFields(b: Book, config: AggregatorConfig, elapsed: int)
    requires Buffered(b) && config.WellFormed() && "" !in b.timers
    requires b.counterRates == map[] && b.timerData == map[]
    ensures var p := CopyBook(ProcessBook(b, config, elapsed));
            && p.counterRates.Keys == p.counters.Keys
            && (forall k :: k in p.counters ==>
                  Product(p.counterRates[k], Num(config.frequency as real)) == p.counters[k])
            && p.timerData.Keys == p.timers.Keys == p.timerCounters.Keys
            && (forall k :: k in p.timers ==>
                  p.timerData[k] == TimerEntries(config.threshold, p.timers[k], p.timerCounters[k], config.percentiles))
            && p.counters == b.counters && p.timers == b.timers && p.timerCounters == b.timerCounters
            && p.gauges == b.gauges && p.sets == b.sets
            && p.statsdMetrics == b.statsdMetrics[PROCESSING_TIME := elapsed]
  {
    hide TimerEntries;
    var rates, entries := Rates(b.counters, config), AllTimerEntries(b, config);
    assert map[] + rates == rates && map[] + entries == entries;
    forall k | k in b.counters
      ensures Product(Over(b.counters[k], config.frequency), Num(config.frequency as real)) == b.counters[k]
    {
      OverTimes(b.counters[k], config.frequency);
    }
  }

  // ---------- order ----------

  lemma SameMaps<K, V>(m: map<K, V>, n: map<K, V>)
    requires forall k :: k in m <==> k in n
    requires forall k :: k in m ==> m[k] == n[k]
    ensures m == n
  {
  }

  lemma EmptyByLength<T>(xs: seq<T>, ys: seq<T>)
    requires multiset(xs) == multiset(ys)
    ensures xs == [] <==> ys == []
  {
    assert |xs| == |multiset(xs)| && |ys| == |multiset(ys)|;
  }

  lemma CountersOrderFree(badLinesKey: string, xs: seq<string>, ys: seq<string>)
    requires multiset(xs) == multiset(ys)
    ensures BookOf(badLinesKey, xs).counters == BookOf(badLinesKey, ys).counters
  {
    hide BookOf, CountedBy, CounterParts;
    var a, b := BookOf(badLinesKey, xs), BookOf(badLinesKey, ys);
    forall k
      ensures k in a.counters <==> k in b.counters
      ensures k in a.counters ==> a.counters[k] == b.counters[k]
    {
      CountersMean(badLinesKey, xs, k);
      CountersMean(badLinesKey, ys, k);
      SigmaPermutation(xs, ys, CounterParts(badLinesKey, k));
      FilterPermutation(xs, ys, CountedBy(badLinesKey, k));
      EmptyByLength(Filter(xs, CountedBy(badLinesKey, k)), Filter(ys, CountedBy(badLinesKey, k)));
    }
    SameMaps(a.counters, b.counters);
  }

  lemma TimersOrderFree(badLinesKey: string, xs: seq<string>, ys: seq<string>, k: string)
    requires multiset(xs) == multiset(ys)
    ensures var a, b := BookOf(badLinesKey, xs), BookOf(badLinesKey, ys);
            && (k in a.timers <==> k in b.timers)
            && multiset(Get(a.timers, k, [])) == multiset(Get(b.timers, k, []))
            && (k in a.timerCounters <==> k in b.timerCounters)
            && Get(a.timerCounters, k, ZERO) == Get(b.timerCounters, k, ZERO)
  {
    hide BookOf, FedBy, TimerParts, LineValue;
    TimersMean(badLinesKey, xs, k);
    TimersMean(badLinesKey, ys, k);
    SigmaPermutation(xs, ys, TimerParts(k));
    FilterPermutation(xs, ys, FedBy(Timer, k));
    EmptyByLength(Filter(xs, FedBy(Timer, k)), Filter(ys, FedBy(Timer, k)));
    ImagePermutation(Filter(xs, FedBy(Timer, k)), Filter(ys, FedBy(Timer, k)), LineValue());
  }

  lemma SetsOrderFree(badLinesKey: string, xs: seq<string>, ys: seq<string>)
    requires multiset(xs) == multiset(ys)
    ensures BookOf(badLinesKey, xs).sets == BookOf(badLinesKey, ys).sets
  {
    hide BookOf, FedBy, LineText;
    var a, b := BookOf(badLinesKey, xs), BookOf(badLinesKey, ys);
    forall k
      ensures k in a.sets <==> k in b.sets
      ensures k in a.sets ==> a.sets[k] == b.sets[k]
    {
      SetsMean(badLinesKey, xs, k);
      SetsMean(badLinesKey, ys, k);
      var mine, theirs := Filter(xs, FedBy(Unique, k)), Filter(ys, FedBy(Unique, k));
      FilterPermutation(xs, ys, FedBy(Unique, k));
      EmptyByLength(mine, theirs);
      ImagePermutation(mine, theirs, LineText());
      SameMembers(Image(mine, LineText()), Image(theirs, LineText()));
    }
    SameMaps(a.sets, b.sets);
  }

  lemma FrequencyOrderFree(badLinesKey: string, xs: seq<string>, ys: seq<string>)
    requires multiset(xs) == multiset(ys)
    ensures BookOf(badLinesKey, xs).frequency == BookOf(badLinesKey, ys).frequency
  {
    hide BookOf, NamedBy;
    var a, b := BookOf(badLinesKey, xs), BookOf(badLinesKey, ys);
    forall k
      ensures k in a.frequency <==> k in b.frequency
      ensures k in a.frequency ==> a.frequency[k] == b.frequency[k]
    {
      FrequenciesMean(badLinesKey, xs, k);
      FrequenciesMean(badLinesKey, ys, k);
      FilterPermutation(xs, ys, NamedBy(k));
      EmptyByLength(Filter(xs, NamedBy(k)), Filter(ys, NamedBy(k)));
      assert |Filter(xs, NamedBy(k))| == |multiset(Filter(xs, NamedBy(k)))|;
      assert |Filter(ys, NamedBy(k))| == |multiset(Filter(ys, NamedBy(k)))|;
    }
    SameMaps(a.frequency, b.frequency);
  }

  lemma TimerCountersOrderFree(badLinesKey: string, xs: seq<string>, ys: seq<string>)
    requires multiset(xs) == multiset(ys)
    ensures BookOf(badLinesKey, xs).timerCounters == BookOf(badLinesKey, ys).timerCounters
  {
    hide BookOf;
    var a, b := BookOf(badLinesKey, xs), BookOf(badLinesKey, ys);
    forall k
      ensures k in a.timerCounters <==> k in b.timerCounters
      ensures k in a.timerCounters ==> a.timerCounters[k] == b.timerCounters[k]
    {
      TimersOrderFree(badLinesKey, xs, ys, k);
    }
    SameMaps(a.timerCounters, b.timerCounters);
  }

  /** The figures of a timer depend on its values as a collection only. */
  lemma TimerEntriesOrderFree(xs: seq<real>, ys: seq<real>, timerCount: Stat, config: AggregatorConfig, key: string)
    requires multiset(xs) == multiset(ys) && xs != [] && config.WellFormed()
    ensures ys != []
    ensures TimerEntriesOf(key, xs, timerCount, config) == TimerEntriesOf(key, ys, timerCount, config)
  {
    EmptyByLength(xs, ys);
    hide Sort, SumOf, AllPercentileEntries;
    SortPermutation(xs, ys);
  }

  lemma TimerDataOrderFree(config: AggregatorConfig, xs: seq<string>, ys: seq<string>)
    requires multiset(xs) == multiset(ys) && config.WellFormed()
    requires Buffered(BookOf(config.BadLinesKey(), xs)) && Buffered(BookOf(config.BadLinesKey(), ys))
    ensures AllTimerEntries(BookOf(config.BadLinesKey(), xs), config)
         == AllTimerEntries(BookOf(config.BadLinesKey(), ys), config)
  {
    hide BookOf, TimerEntriesOf;
    var a, b := BookOf(config.BadLinesKey(), xs), BookOf(config.BadLinesKey(), ys);
    forall k
      ensures k in a.timers <==> k in b.timers
      ensures k in a.timers ==> (
                TimerEntriesOf(k, a.timers[k], a.timerCounters[k], config)
                == TimerEntriesOf(k, b.timers[k], b.timerCounters[k], config))
    {
      TimersOrderFree(config.BadLinesKey(), xs, ys, k);
      if k in a.timers {
        TimerEntriesOrderFree(a.timers[k], b.timers[k], a.timerCounters[k], config, k);
      }
    }
  }

  lemma StatusOrderFree(badLinesKey: string, xs: seq<string>, ys: seq<string>)
    requires multiset(xs) == multiset(ys)
    ensures BookOf(badLinesKey, xs).statsdMetrics == BookOf(badLinesKey, ys).statsdMetrics
  {
    hide BookOf;
    LinesAccountedFor(badLinesKey, xs);
    LinesAccountedFor(badLinesKey, ys);
    EmptyByLength(xs, ys);
    assert |xs| == |multiset(xs)| == |multiset(ys)| == |ys|;
    var m, n := BookOf(badLinesKey, xs).statsdMetrics, BookOf(badLinesKey, ys).statsdMetrics;
    assert forall k :: k in m ==> k == METRICS_PROCESSED;
    assert forall k :: k in n ==> k == METRICS_PROCESSED;
    SameMaps(m, n);
  }

  /** After `process`, everything but the gauges is the same for every order of the lines. */
  lemma OrderIndependence(config: AggregatorConfig, xs: seq<string>, ys: seq<string>, elapsed: int)
    requires multiset(xs) == multiset(ys) && config.WellFormed()
    ensures Buffered(BookOf(config.BadLinesKey(), xs)) && Buffered(BookOf(config.BadLinesKey(), ys))
    ensures var a := ProcessBook(BookOf(config.BadLinesKey(), xs), config, elapsed);
            var b := ProcessBook(BookOf(config.BadLinesKey(), ys), config, elapsed);
            && a.counters == b.counters && a.counterRates == b.counterRates
            && a.timerCounters == b.timerCounters && a.timerData == b.timerData
            && a.sets == b.sets && a.frequency == b.frequency && a.statsdMetrics == b.statsdMetrics
  {
    hide BookOf, AllTimerEntries, Rates;
    BufferedBook(config.BadLinesKey(), xs);
    BufferedBook(config.BadLinesKey(), ys);
    CountersOrderFree(config.BadLinesKey(), xs, ys);
    SetsOrderFree(config.BadLinesKey(), xs, ys);
    FrequencyOrderFree(config.BadLinesKey(), xs, ys);
    TimerCountersOrderFree(config.BadLinesKey(), xs, ys);
    TimerDataOrderFree(config, xs, ys);
    StatusOrderFree(config.BadLinesKey(), xs, ys);
    LinesAccountedFor(config.BadLinesKey(), xs);
    LinesAccountedFor(config.BadLinesKey(), ys);
  }
}
