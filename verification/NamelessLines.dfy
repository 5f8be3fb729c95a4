/**
 Lines without a name: the aggregator counts them, all of them, in one counter of its own.
 */
module NamelessLines {
  import opened Amounts
  import opened Collections
  import opened Config
  import opened Conservation
  import opened LedgerMeaning
  import opened MetricLine
  import opened Pipeline
  import opened PipelineTheorems
  import opened Routing
  import opened Sharding
  import opened Text

  function Nameless(): string -> bool {
    line => ':' !in line
  }

  /** No line received is itself a counter line of that name. */
  ghost predicate KeyUnused(key: string, lines: seq<string>) {
    forall l :: l in lines && ':' in l ==> !Feeds(Classify(CStr(l)), Counter, key)
  }

  lemma KeysDiffer(config: AggregatorConfig)
    ensures config.BadKeysKey() != config.BadLinesKey()
  {
    assert |config.BadKeysKey()| == |config.name| + 9 && |config.BadLinesKey()| == |config.name| + 15;
  }

  lemma NamelessPart(config: AggregatorConfig, line: string)
    requires ':' !in config.name && '\0' !in config.name && |config.BadKeysKey()| <= TOKEN_LIMIT
    requires ':' in line ==> !Feeds(Classify(CStr(line)), Counter, config.BadKeysKey())
    ensures CounterPart(Classify(Enqueued(config)(line)), config.BadLinesKey(), config.BadKeysKey())
         == if ':' in line then ZERO else Num(1.0)
  {
    hide Classify, CStr;
    KeysDiffer(config);
    BadKeysMetricAccepted(config);
  }

  lemma {:induction false} NamelessParts(config: AggregatorConfig, lines: seq<string>)
    requires ':' !in config.name && '\0' !in config.name && |config.BadKeysKey()| <= TOKEN_LIMIT
    requires KeyUnused(config.BadKeysKey(), lines)
    ensures Sigma(Image(lines, Enqueued(config)), CounterParts(config.BadLinesKey(), config.BadKeysKey()))
         == Num(|Filter(lines, Nameless())| as real)
  {
    hide Classify, CounterPart, Enqueued, Feeds;
    if lines != [] {
      var front, last := lines[..|lines| - 1], lines[|lines| - 1];
      assert lines == front + [last] && last in lines;
      assert forall l :: l in front ==> l in lines;
      NamelessParts(config, front);
      NamelessPart(config, last);
      ImageSnoc(front, last, Enqueued(config));
      var before := Image(front, Enqueued(config));
      assert (before + [Enqueued(config)(last)])[..|before|] == before;
    }
  }

  lemma CountedByKey(u: Setup, y: System, key: string)
    requires Fits(u) && RunReaches(u, y) && Settled(y) && key == u.context.config.BadKeysKey()
    requires '\0' !in u.context.config.name && |key| <= TOKEN_LIMIT && KeyUnused(key, y.consumed)
    ensures Get(MergeAll(BooksOfWorkers(y)).counters, key, ZERO) == Num(|Filter(y.consumed, Nameless())| as real)
  {
    hide RunReaches, Settled, KeyUnused, Sigma, Filter, MergeAll, BooksOfWorkers, Enqueued, CounterParts;
    CountsEndToEnd(u, y, key);
    NamelessParts(u.context.config, y.consumed);
  }

  /** Over all workers and flushes the bad-keys counter is the number of nameless lines received. */
  lemma NamelessCounted(u: Setup, y: System)
    requires Fits(u) && RunReaches(u, y) && Settled(y)
    requires '\0' !in u.context.config.name && |u.context.config.name| + 9 <= 1496
    requires KeyUnused(u.context.config.name + ".bad_keys", y.consumed)
    ensures Get(MergeAll(BooksOfWorkers(y)).counters, u.context.config.name + ".bad_keys", Num(0.0))
         == Num(|Filter(y.consumed, Nameless())| as real)
  {
    hide RunReaches, Settled, KeyUnused, Filter, MergeAll, BooksOfWorkers, Nameless;
    assert u.context.config.BadKeysKey() == u.context.config.name + ".bad_keys";
    CountedByKey(u, y, u.context.config.name + ".bad_keys");
  }
}
