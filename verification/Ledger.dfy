/**
 The ledger: one flush window's worth of metrics. `Buffer` adds a line, `Process` computes the
 figures that are sent to the backends.
 */
module LedgerModel {
  import opened Amounts
  import opened Collections
  import opened Config
  import opened MetricLine
  import opened TimerStatistics

  const METRICS_PROCESSED := "metrics_processed"
  const PROCESSING_TIME := "processing_time"

  /** The contents of a ledger. */
  datatype Book = Book(
    frequency: map<string, int>,
    counters: map<string, Stat>,
    timers: map<string, seq<real>>,
    timerCounters: map<string, Stat>,
    gauges: map<string, real>,
    sets: map<string, set<string>>,
    counterRates: map<string, Stat>,
    timerData: map<string, map<string, Stat>>,
    statsdMetrics: map<string, int>)

  const EMPTY_BOOK: Book := Book(map[], map[], map[], map[], map[], map[], map[], map[], map[])

  // ---------- buffering a line ----------

  function AddTo(m: map<string, Stat>, k: string, x: Stat): map<string, Stat> {
    m[k := Plus(Get(m, k, ZERO), x)]
  }

  function AddReal(m: map<string, real>, k: string, x: real): map<string, real> {
    m[k := Get(m, k, 0.0) + x]
  }

  function Increment(m: map<string, int>, k: string): map<string, int> {
    m[k := Get(m, k, 0) + 1]
  }

  /** How many events a line sampled at `rate` stands for; no number if the rate is 0. */
  function Weight(rate: real): Stat {
    Quotient(1.0, rate)
  }

  function Weighted(value: real, rate: real): Stat {
    Product(Num(value), Weight(rate))
  }

  function NextFrequency(m: map<string, int>, p: Parsed): map<string, int> {
    if p.Bad? then m else Increment(m, p.name)
  }

  function NextCounters(m: map<string, Stat>, badLinesKey: string, p: Parsed): map<string, Stat> {
    if p.Bad? then AddTo(m, badLinesKey, Num(1.0))
    else if p.kind == Counter then AddTo(m, p.name, Weighted(p.value, p.rate))
    else m
  }

  function NextTimers(m: map<string, seq<real>>, p: Parsed): map<string, seq<real>> {
    if p.Accepted? && p.kind == Timer then m[p.name := Get(m, p.name, []) + [p.value]] else m
  }

  function NextTimerCounters(m: map<string, Stat>, p: Parsed): map<string, Stat> {
    if p.Accepted? && p.kind == Timer then AddTo(m, p.name, Weight(p.rate)) else m
  }

  function NextGauges(m: map<string, real>, p: Parsed): map<string, real> {
    if p.Bad? || p.kind != Gauge then m
    else if p.delta then AddReal(m, p.name, p.value)
    else m[p.name := p.value]
  }

  function NextSets(m: map<string, set<string>>, p: Parsed): map<string, set<string>> {
    if p.Accepted? && p.kind == Unique then m[p.name := Get(m, p.name, {}) + {p.text}] else m
  }

  function BufferParsed(b: Book, badLinesKey: string, p: Parsed): Book {
    Book(NextFrequency(b.frequency, p),
         NextCounters(b.counters, badLinesKey, p),
         NextTimers(b.timers, p),
         NextTimerCounters(b.timerCounters, p),
         NextGauges(b.gauges, p),
         NextSets(b.sets, p),
         b.counterRates,
         b.timerData,
         Increment(b.statsdMetrics, METRICS_PROCESSED))
  }

  /** The ledger after one more line. */
  function BufferLine(b: Book, badLinesKey: string, line: string): Book {
    BufferParsed(b, badLinesKey, Classify(line))
  }

  /** The ledger after a whole stream, from the given start. */
  function BufferLines(b: Book, badLinesKey: string, lines: seq<string>): Book {
    if lines == [] then b
    else BufferLine(BufferLines(b, badLinesKey, lines[..|lines| - 1]), badLinesKey, lines[|lines| - 1])
  }

  // ---------- processing ----------

  /** What `process` relies on, and every sequence of `buffer` calls on a new ledger keeps true. */
  ghost predicate Buffered(b: Book) {
    && b.timers.Keys == b.timerCounters.Keys
    && (forall k :: k in b.timers ==> b.timers[k] != [])
  }

  const NO_NAME_ENTRIES: map<string, Stat> := map["count" := Num(0.0), "count_ps" := Num(0.0)]

  function TimerEntriesOf(key: string, timer: seq<real>, timerCount: Stat, config: AggregatorConfig): map<string, Stat>
    requires timer != [] && config.WellFormed()
  {
    if key == "" then NO_NAME_ENTRIES else TimerEntries(config.threshold, timer, timerCount, config.percentiles)
  }

  ghost function Rates(counters: map<string, Stat>, config: AggregatorConfig): map<string, Stat>
    requires config.WellFormed()
  {
    map k | k in counters :: Over(counters[k], config.frequency)
  }

  ghost function AllTimerEntries(b: Book, config: AggregatorConfig): map<string, map<string, Stat>>
    requires Buffered(b) && config.WellFormed()
  {
    map k | k in b.timers :: TimerEntriesOf(k, b.timers[k], b.timerCounters[k], config)
  }

  ghost function ProcessBook(b: Book, config: AggregatorConfig, elapsed: int): Book
    requires Buffered(b) && config.WellFormed()
  {
    b.(counterRates := b.counterRates + Rates(b.counters, config),
       timerData := b.timerData + AllTimerEntries(b, config),
       statsdMetrics := b.statsdMetrics[PROCESSING_TIME := elapsed])
  }

  lemma AllTimerEntriesReads(b: Book, c: Book, config: AggregatorConfig)
    requires Buffered(b) && config.WellFormed()
    requires c.timers == b.timers && c.timerCounters == b.timerCounters
    ensures Buffered(c) && AllTimerEntries(c, config) == AllTimerEntries(b, config)
  {
  }

  /** Copying and assigning a ledger leave its `frequency` behind. */
  function CopyBook(b: Book): Book {
    b.(frequency := map[])
  }

  function BadLinesSeen(b: Book, badLinesKey: string): int {
    if badLinesKey in b.counters then Truncated(b.counters[badLinesKey]) else 0
  }

  /** `static_cast<int>`: towards zero. C++ leaves an infinity or NaN undefined; x86 gives `INT_MIN`. */
  function Truncated(x: Stat): int {
    if x.NotFinite? then -0x8000_0000
    else if x.value < 0.0 then -(-x.value).Floor
    else x.value.Floor
  }

  /** It drops the fraction, towards zero. */
  lemma TruncatedMeans(x: real)
    ensures var n := Truncated(Num(x)) as real;
            if x >= 0.0 then n <= x < n + 1.0 && n >= 0.0 else n - 1.0 < x <= n && n <= 0.0
  {
  }

  class Ledger {
    var frequency: map<string, int>
    var counters: map<string, Stat>
    var timers: map<string, seq<real>>
    var timerCounters: map<string, Stat>
    var gauges: map<string, real>
    var sets: map<string, set<string>>
    var counterRates: map<string, Stat>
    var timerData: map<string, map<string, Stat>>
    var statsdMetrics: map<string, int>

    function Contents(): Book
      reads this
    {
      Book(frequency, counters, timers, timerCounters, gauges, sets, counterRates, timerData, statsdMetrics)
    }

    constructor ()
      ensures Contents() == EMPTY_BOOK
    {
      frequency, counters, timers, timerCounters := map[], map[], map[], map[];
      gauges, sets, counterRates, timerData, statsdMetrics := map[], map[], map[], map[], map[];
    }

    constructor Copy(other: Ledger)
      ensures Contents() == CopyBook(other.Contents())
    {
      frequency := map[];
      counters, timers, timerCounters := other.counters, other.timers, other.timerCounters;
      gauges, sets := other.gauges, other.sets;
      counterRates, timerData, statsdMetrics := other.counterRates, other.timerData, other.statsdMetrics;
    }

    /** Copy assignment keeps the `frequency` the target had. */
    method Assign(other: Ledger)
      modifies this
      ensures Contents() == old(other.Contents()).(frequency := old(frequency))
    {
      counters, timers, timerCounters := other.counters, other.timers, other.timerCounters;
      gauges, sets := other.gauges, other.sets;
      counterRates, timerData, statsdMetrics := other.counterRates, other.timerData, other.statsdMetrics;
    }

    method Buffer(config: AggregatorConfig, metric: string)
      modifies this
      ensures Contents() == BufferLine(old(Contents()), config.BadLinesKey(), metric)
    {
      hide Classify, AddTo, AddReal, Increment, Product, Quotient;
      statsdMetrics := Increment(statsdMetrics, METRICS_PROCESSED);
      var badLinesSeen := config.BadLinesKey();

      var parsed := Classify(metric);
      if parsed.Bad? {
        counters := AddTo(counters, badLinesSeen, Num(1.0));
        return;
      }
      var name, rate := parsed.name, parsed.rate;
      frequency := Increment(frequency, name);

      match parsed.kind {
        case Timer =>
          timerCounters := AddTo(timerCounters, name, Quotient(1.0, rate));
          timers := timers[name := Get(timers, name, []) + [parsed.value]];
        case Gauge =>
          if parsed.delta {
            gauges := AddReal(gauges, name, parsed.value);
          } else {
            gauges := gauges[name := parsed.value];
          }
        case Unique =>
          sets := sets[name := Get(sets, name, {}) + {parsed.text}];
        case Counter =>
          counters := AddTo(counters, name, Product(Num(parsed.value), Quotient(1.0, rate)));
      }
    }

    /** `elapsed` stands for the clock difference the original stores. */
    method Process(config: AggregatorConfig, elapsed: int)
      requires config.WellFormed() && Buffered(Contents())
      modifies this`counterRates, this`timerData, this`statsdMetrics
      ensures Contents() == ProcessBook(old(Contents()), config, elapsed)
    {
      hide Rates, AllTimerEntries;
      ComputeRates(config);
      AllTimerEntriesReads(old(Contents()), Contents(), config);
      ComputeTimerData(config);
      statsdMetrics := statsdMetrics[PROCESSING_TIME := elapsed];
    }

    method ComputeRates(config: AggregatorConfig)
      requires config.WellFormed()
      modifies this`counterRates
      ensures counterRates == old(counterRates) + Rates(counters, config)
    {
      var rest := counters.Keys;
      ghost var rates := Rates(counters, config);
      WithoutAll(counterRates, rates);
      while rest != {}
        invariant rest <= counters.Keys
        invariant counterRates == old(counterRates) + Without(rates, rest)
        decreases rest
      {
        var k :| k in rest;
        FillOne(old(counterRates), rates, rest, k);
        counterRates := counterRates[k := Over(counters[k], config.frequency)];
        rest := rest - {k};
      }
    }

    method ComputeTimerData(config: AggregatorConfig)
      requires config.WellFormed() && Buffered(Contents())
      modifies this`timerData
      ensures timerData == old(timerData) + AllTimerEntries(old(Contents()), config)
    {
      hide TimerEntries, Without;
      ghost var entries := AllTimerEntries(Contents(), config);
      var rest := timers.Keys;
      assert entries.Keys == timers.Keys;
      WithoutAll(timerData, entries);
      while rest != {}
        invariant rest <= timers.Keys
        invariant timerData == old(timerData) + Without(entries, rest)
        decreases rest
      {
        var key :| key in rest;
        var currentTimerData: map<string, Stat>;
        if |key| <= 0 {
          currentTimerData := map["count" := Num(0.0), "count_ps" := Num(0.0)];
        } else {
          currentTimerData := Summarise(config.threshold, timers[key], timerCounters[key], config.percentiles);
        }
        assert currentTimerData == entries[key];
        FillOne(old(timerData), entries, rest, key);
        timerData := timerData[key := currentTimerData];
        rest := rest - {key};
      }
    }

    method CountBadLines(config: AggregatorConfig) returns (n: int)
      ensures n == BadLinesSeen(Contents(), config.BadLinesKey())
    {
      if config.BadLinesKey() in counters {
        n := Truncated(counters[config.BadLinesKey()]);
      } else {
        n := 0;
      }
    }
  }
}
