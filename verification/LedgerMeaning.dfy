/**
 What a ledger holds after any stream of lines, said directly in terms of the lines, and which of it
 depends on their order.
 */
module LedgerMeaning {
  import opened Amounts
  import opened Collections
  import opened MetricLine
  import opened LedgerModel

  function BookOf(badLinesKey: string, lines: seq<string>): Book {
    BufferLines(EMPTY_BOOK, badLinesKey, lines)
  }

  lemma BufferOneMore(b: Book, badLinesKey: string, lines: seq<string>, line: string)
    ensures BufferLines(b, badLinesKey, lines + [line])
         == BufferLine(BufferLines(b, badLinesKey, lines), badLinesKey, line)
  {
    assert (lines + [line])[..|lines|] == lines;
  }

  lemma BookOfOneMore(badLinesKey: string, lines: seq<string>, line: string)
    ensures BookOf(badLinesKey, lines + [line]) == BufferLine(BookOf(badLinesKey, lines), badLinesKey, line)
  {
    BufferOneMore(EMPTY_BOOK, badLinesKey, lines, line);
  }

  // ---------- what a single line is about ----------

  predicate Names(p: Parsed, key: string) {
    p.Accepted? && p.name == key
  }

  predicate Feeds(p: Parsed, kind: Kind, key: string) {
    p.Accepted? && p.name == key && p.kind == kind
  }

  /** Whether a line touches the counter `key`: as a counter line, or as a bad one. */
  predicate Counts(p: Parsed, badLinesKey: string, key: string) {
    Feeds(p, Counter, key) || (p.Bad? && key == badLinesKey)
  }

  /** What a line adds to the counter `key`. */
  function CounterPart(p: Parsed, badLinesKey: string, key: string): Stat {
    if Feeds(p, Counter, key) then Weighted(p.value, p.rate)
    else if p.Bad? && key == badLinesKey then Num(1.0)
    else ZERO
  }

  function TimerPart(p: Parsed, key: string): Stat {
    if Feeds(p, Timer, key) then Weight(p.rate) else ZERO
  }

  function GaugePart(p: Parsed, key: string): real {
    if Feeds(p, Gauge, key) then p.value else 0.0
  }

  predicate Overwrites(p: Parsed, key: string) {
    Feeds(p, Gauge, key) && !p.delta
  }

  function ValueOf(p: Parsed): real {
    if p.Bad? then 0.0 else p.value
  }

  function TextOf(p: Parsed): string {
    if p.Bad? then "" else p.text
  }

  // ---------- one step, field by field ----------

  lemma StepCounters(b: Book, badLinesKey: string, p: Parsed, k: string)
    ensures var c := BufferParsed(b, badLinesKey, p);
            && (k in c.counters <==> k in b.counters || Counts(p, badLinesKey, k))
            && Get(c.counters, k, ZERO) == Plus(Get(b.counters, k, ZERO), CounterPart(p, badLinesKey, k))
  {
  }

  lemma StepTimers(b: Book, badLinesKey: string, p: Parsed, k: string)
    ensures var c := BufferParsed(b, badLinesKey, p);
            && (k in c.timers <==> k in b.timers || Feeds(p, Timer, k))
            && (k in c.timerCounters <==> k in b.timerCounters || Feeds(p, Timer, k))
            && Get(c.timerCounters, k, ZERO) == Plus(Get(b.timerCounters, k, ZERO), TimerPart(p, k))
            && Get(c.timers, k, [])
            == if Feeds(p, Timer, k) then Get(b.timers, k, []) + [ValueOf(p)] else Get(b.timers, k, [])
  {
  }

  lemma StepSets(b: Book, badLinesKey: string, p: Parsed, k: string)
    ensures var c := BufferParsed(b, badLinesKey, p);
            && (k in c.sets <==> k in b.sets || Feeds(p, Unique, k))
            && Get(c.sets, k, {})
            == if Feeds(p, Unique, k) then Get(b.sets, k, {}) + {TextOf(p)} else Get(b.sets, k, {})
  {
  }

  lemma StepGauges(b: Book, badLinesKey: string, p: Parsed, k: string)
    ensures var c := BufferParsed(b, badLinesKey, p);
            && (k in c.gauges <==> k in b.gauges || Feeds(p, Gauge, k))
            && Get(c.gauges, k, 0.0)
            == if Overwrites(p, k) then ValueOf(p) else Get(b.gauges, k, 0.0) + GaugePart(p, k)
  {
  }

  lemma StepFrequency(b: Book, badLinesKey: string, p: Parsed, k: string)
    ensures var c := BufferParsed(b, badLinesKey, p);
            && (k in c.frequency <==> k in b.frequency || Names(p, k))
            && Get(c.frequency, k, 0) == if Names(p, k) then Get(b.frequency, k, 0) + 1 else Get(b.frequency, k, 0)
  {
  }

  lemma StepOther(b: Book, badLinesKey: string, p: Parsed)
    ensures var c := BufferParsed(b, badLinesKey, p);
            && c.counterRates == b.counterRates && c.timerData == b.timerData
            && c.statsdMetrics == Increment(b.statsdMetrics, METRICS_PROCESSED)
  {
  }

  // ---------- the same, for the lines of a stream ----------

  function IsBad(): string -> bool {
    line => Classify(line).Bad?
  }

  function NamedBy(key: string): string -> bool {
    line => Names(Classify(line), key)
  }

  function FedBy(kind: Kind, key: string): string -> bool {
    line => Feeds(Classify(line), kind, key)
  }

  function CountedBy(badLinesKey: string, key: string): string -> bool {
    line => Counts(Classify(line), badLinesKey, key)
  }

  function OverwrittenBy(key: string): string -> bool {
    line => Overwrites(Classify(line), key)
  }

  function CounterParts(badLinesKey: string, key: string): string -> Stat {
    line => CounterPart(Classify(line), badLinesKey, key)
  }

  function TimerParts(key: string): string -> Stat {
    line => TimerPart(Classify(line), key)
  }

  function GaugeParts(key: string): string -> real {
    line => GaugePart(Classify(line), key)
  }

  function LineValue(): string -> real {
    line => ValueOf(Classify(line))
  }

  function LineText(): string -> string {
    line => TextOf(Classify(line))
  }

  // ---------- whole streams ----------

  /** A counter is the sum of value over rate; the bad-lines counter also counts the bad lines. */
  lemma {:induction false} CountersMean(badLinesKey: string, lines: seq<string>, k: string)
    ensures var b := BookOf(badLinesKey, lines);
            && (k in b.counters <==> Filter(lines, CountedBy(badLinesKey, k)) != [])
            && Get(b.counters, k, ZERO) == Sigma(lines, CounterParts(badLinesKey, k))
  {
    hide Classify, BufferParsed, Counts, CounterPart;
    if lines != [] {
      CountersMean(badLinesKey, lines[..|lines| - 1], k);
      StepCounters(BookOf(badLinesKey, lines[..|lines| - 1]), badLinesKey, Classify(lines[|lines| - 1]), k);
    }
  }

  /** A timer holds its values in order of arrival, and the number of events they stand for. */
  lemma {:induction false} TimersMean(badLinesKey: string, lines: seq<string>, k: string)
    ensures var b, mine := BookOf(badLinesKey, lines), Filter(lines, FedBy(Timer, k));
            && (k in b.timers <==> mine != []) && (k in b.timerCounters <==> mine != [])
            && Get(b.timers, k, []) == Image(mine, LineValue())
            && Get(b.timerCounters, k, ZERO) == Sigma(lines, TimerParts(k))
  {
    hide Classify, BufferParsed, Feeds, TimerPart, ValueOf;
    if lines != [] {
      var front, last := lines[..|lines| - 1], lines[|lines| - 1];
      TimersMean(badLinesKey, front, k);
      StepTimers(BookOf(badLinesKey, front), badLinesKey, Classify(last), k);
      ImageSnoc(Filter(front, FedBy(Timer, k)), last, LineValue());
    }
  }

  lemma ImageSnoc<T, U>(xs: seq<T>, x: T, f: T -> U)
    ensures Image(xs + [x], f) == Image(xs, f) + [f(x)]
  {
  }

  /** A set holds the distinct texts it was sent. */
  lemma {:induction false} SetsMean(badLinesKey: string, lines: seq<string>, k: string)
    ensures var b, mine := BookOf(badLinesKey, lines), Filter(lines, FedBy(Unique, k));
            && (k in b.sets <==> mine != [])
            && Get(b.sets, k, {}) == set text | text in Image(mine, LineText())
  {
    hide Classify, BufferParsed, Feeds, TextOf;
    if lines != [] {
      var front, last := lines[..|lines| - 1], lines[|lines| - 1];
      SetsMean(badLinesKey, front, k);
      StepSets(BookOf(badLinesKey, front), badLinesKey, Classify(last), k);
      ImageSnoc(Filter(front, FedBy(Unique, k)), last, LineText());
    }
  }

  lemma {:induction false} GaugeChanges(b: Book, badLinesKey: string, lines: seq<string>, k: string)
    requires Filter(lines, OverwrittenBy(k)) == []
    ensures var c := BufferLines(b, badLinesKey, lines);
            && Get(c.gauges, k, 0.0) == Get(b.gauges, k, 0.0) + Total(lines, GaugeParts(k))
            && (k in c.gauges <==> k in b.gauges || Filter(lines, FedBy(Gauge, k)) != [])
  {
    hide Classify, BufferParsed, Feeds, GaugePart, Overwrites;
    if lines != [] {
      GaugeChanges(b, badLinesKey, lines[..|lines| - 1], k);
      StepGauges(BufferLines(b, badLinesKey, lines[..|lines| - 1]), badLinesKey, Classify(lines[|lines| - 1]), k);
    }
  }

  lemma {:induction false} BufferAppend(b: Book, badLinesKey: string, xs: seq<string>, ys: seq<string>)
    ensures BufferLines(b, badLinesKey, xs + ys) == BufferLines(BufferLines(b, badLinesKey, xs), badLinesKey, ys)
  {
    hide BufferLine;
    if ys == [] {
      assert xs + ys == xs;
    } else {
      assert (xs + ys)[..|xs + ys| - 1] == xs + ys[..|ys| - 1];
      BufferAppend(b, badLinesKey, xs, ys[..|ys| - 1]);
    }
  }

  /** A gauge is its last unsigned value plus the signed changes since, whatever came before. */
  lemma GaugesMean(badLinesKey: string, before: seq<string>, write: string, after: seq<string>, k: string)
    requires OverwrittenBy(k)(write) && Filter(after, OverwrittenBy(k)) == []
    ensures var b := BookOf(badLinesKey, before + [write] + after);
            k in b.gauges && b.gauges[k] == LineValue()(write) + Total(after, GaugeParts(k))
  {
    hide Classify, BufferParsed, GaugePart, ValueOf;
    BufferAppend(EMPTY_BOOK, badLinesKey, before + [write], after);
    BufferOneMore(EMPTY_BOOK, badLinesKey, before, write);
    StepGauges(BookOf(badLinesKey, before), badLinesKey, Classify(write), k);
    GaugeChanges(BookOf(badLinesKey, before + [write]), badLinesKey, after, k);
  }

  /** A gauge that was never written outright starts from 0. */
  lemma GaugesMeanFromZero(badLinesKey: string, lines: seq<string>, k: string)
    requires Filter(lines, OverwrittenBy(k)) == []
    ensures var b := BookOf(badLinesKey, lines);
            && (k in b.gauges <==> Filter(lines, FedBy(Gauge, k)) != [])
            && Get(b.gauges, k, 0.0) == Total(lines, GaugeParts(k))
  {
    hide BufferLine, GaugeParts, FedBy, OverwrittenBy;
    GaugeChanges(EMPTY_BOOK, badLinesKey, lines, k);
  }

  // ---------- accounting ----------

  function Frequencies(b: Book): string -> int {
    k => Get(b.frequency, k, 0)
  }

  lemma FrequencySumStep(b: Book, badLinesKey: string, p: Parsed)
    ensures var c := BufferParsed(b, badLinesKey, p);
            Sum(c.frequency.Keys, Frequencies(c)) == Sum(b.frequency.Keys, Frequencies(b)) + if p.Bad? then 0 else 1
  {
    var c := BufferParsed(b, badLinesKey, p);
    forall k
      ensures k in c.frequency <==> k in b.frequency || Names(p, k)
      ensures Get(c.frequency, k, 0) == if Names(p, k) then Get(b.frequency, k, 0) + 1 else Get(b.frequency, k, 0)
    {
      StepFrequency(b, badLinesKey, p, k);
    }
    hide BufferParsed;
    if p.Bad? {
      assert c.frequency.Keys == b.frequency.Keys;
      SumSame(b.frequency.Keys, Frequencies(b), Frequencies(c));
    } else {
      var others := b.frequency.Keys - {p.name};
      assert c.frequency.Keys == others + {p.name};
      SumInsert(others, p.name, Frequencies(c));
      SumSame(others, Frequencies(b), Frequencies(c));
      if p.name in b.frequency {
        SumRemove(b.frequency.Keys, p.name, Frequencies(b));
      } else {
        assert others == b.frequency.Keys;
      }
    }
  }

  /** Every line is counted once: under its name if it was accepted, else as a bad line. */
  lemma {:induction false} LinesAccountedFor(badLinesKey: string, lines: seq<string>)
    ensures var b := BookOf(badLinesKey, lines);
            && Get(b.statsdMetrics, METRICS_PROCESSED, 0) == |lines|
            && b.statsdMetrics.Keys == (if lines == [] then {} else {METRICS_PROCESSED})
            && |lines| == Sum(b.frequency.Keys, Frequencies(b)) + |Filter(lines, IsBad())|
            && b.counterRates == map[] && b.timerData == map[]
  {
    hide Classify, BufferParsed, Frequencies;
    if lines != [] {
      var front, last := lines[..|lines| - 1], lines[|lines| - 1];
      LinesAccountedFor(badLinesKey, front);
      FrequencySumStep(BookOf(badLinesKey, front), badLinesKey, Classify(last));
      StepOther(BookOf(badLinesKey, front), badLinesKey, Classify(last));
    } else {
      assert Sum({}, Frequencies(EMPTY_BOOK)) == 0;
    }
  }

  /** The number of accepted lines under a name is its frequency. */
  lemma {:induction false} FrequenciesMean(badLinesKey: string, lines: seq<string>, k: string)
    ensures var b, mine := BookOf(badLinesKey, lines), Filter(lines, NamedBy(k));
            && (k in b.frequency <==> mine != []) && Get(b.frequency, k, 0) == |mine|
  {
    hide Classify, BufferParsed, Names;
    if lines != [] {
      var front, last := lines[..|lines| - 1], lines[|lines| - 1];
      FrequenciesMean(badLinesKey, front, k);
      StepFrequency(BookOf(badLinesKey, front), badLinesKey, Classify(last), k);
    }
  }

  lemma {:induction false} BadPartsCount(badLinesKey: string, lines: seq<string>)
    requires Filter(lines, FedBy(Counter, badLinesKey)) == []
    ensures Sigma(lines, CounterParts(badLinesKey, badLinesKey)) == Num(|Filter(lines, IsBad())| as real)
  {
    hide Classify;
    if lines != [] {
      BadPartsCount(badLinesKey, lines[..|lines| - 1]);
    }
  }

  /** Unless a counter line uses its name, the bad-lines counter is the number of bad lines. */
  lemma BadLinesCounted(badLinesKey: string, lines: seq<string>)
    requires Filter(lines, FedBy(Counter, badLinesKey)) == []
    ensures BadLinesSeen(BookOf(badLinesKey, lines), badLinesKey) == |Filter(lines, IsBad())|
  {
    hide BookOf, FedBy, CounterParts, CountedBy;
    CountersMean(badLinesKey, lines, badLinesKey);
    BadPartsCount(badLinesKey, lines);
  }
}
