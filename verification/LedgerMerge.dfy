/**
 Cutting a stream into pieces: the ledgers of the pieces, put together in order, hold the counters,
 timers and sets of the whole stream. `GaugeFlushes` says when they also hold its gauges.
 */
module LedgerMerge {
  import opened Amounts
  import opened Collections
  import opened Config
  import opened LedgerMeaning
  import opened LedgerModel
  import opened MetricLine
  import opened Sharding

  /** The part of a ledger that adds up over flushes. */
  function Core(b: Book): Book {
    Book(map[], b.counters, b.timers, b.timerCounters, map[], b.sets, map[], map[], map[])
  }

  lemma CoreOfMerge(a: Book, b: Book)
    ensures Core(Merge(a, b)) == Merge(Core(a), Core(b))
  {
    assert AddInts(map[], map[]) == map[];
  }

  /** Processing a ledger and copying it keep that part. */
  lemma CoreOfSnapshot(b: Book, config: AggregatorConfig, elapsed: int)
    requires config.WellFormed() && Buffered(b)
    ensures Core(ProcessBook(b, config, elapsed)) == Core(b) == Core(CopyBook(ProcessBook(b, config, elapsed)))
  {
  }

  lemma CoreStep(a: Book, b: Book, badLinesKey: string, p: Parsed)
    ensures Core(BufferParsed(Merge(a, b), badLinesKey, p)) == Core(Merge(a, BufferParsed(b, badLinesKey, p)))
  {
    hide AddInts, AddStats, JoinTimers, JoinSets, AddTo, Increment, Weight, Weighted;
    if p.Bad? {
      AddLeft(a.counters, b.counters, badLinesKey, Num(1.0));
    } else {
      AddLeft(a.counters, b.counters, p.name, Weighted(p.value, p.rate));
      AddLeft(a.timerCounters, b.timerCounters, p.name, Weight(p.rate));
      TimersEitherSide(a.timers, b.timers, p);
      SetsEitherSide(a.sets, b.sets, p);
    }
  }

  lemma CoreOfStep(a: Book, b: Book, badLinesKey: string, p: Parsed)
    requires Core(a) == Core(b)
    ensures Core(BufferParsed(a, badLinesKey, p)) == Core(BufferParsed(b, badLinesKey, p))
  {
  }

  lemma MergeNothing<V>(m: map<string, V>, op: (V, V) -> V)
    ensures MergeWith(m, map[], op) == m == MergeWith(map[], m, op)
  {
  }

  lemma MergeWithEmpty(b: Book)
    ensures Core(Merge(b, EMPTY_BOOK)) == Core(b) == Core(Merge(EMPTY_BOOK, b))
  {
    hide MergeWith;
    MergeNothing(b.counters, PlusOp());
    MergeNothing(b.timers, (x, y) => x + y);
    MergeNothing(b.timerCounters, PlusOp());
    MergeNothing(b.sets, (x, y) => x + y);
  }

  /** One stream after another is one ledger put after another. */
  lemma {:induction false} AppendMerges(badLinesKey: string, xs: seq<string>, ys: seq<string>)
    ensures Core(BookOf(badLinesKey, xs + ys)) == Core(Merge(BookOf(badLinesKey, xs), BookOf(badLinesKey, ys)))
  {
    hide Classify, BufferParsed, Merge, Core;
    if ys == [] {
      assert xs + ys == xs;
      MergeWithEmpty(BookOf(badLinesKey, xs));
    } else {
      var front, last := ys[..|ys| - 1], ys[|ys| - 1];
      assert xs + ys == xs + front + [last] && ys == front + [last];
      AppendMerges(badLinesKey, xs, front);
      BookOfOneMore(badLinesKey, xs + front, last);
      BookOfOneMore(badLinesKey, front, last);
      var a, b, p := BookOf(badLinesKey, xs), BookOf(badLinesKey, front), Classify(last);
      CoreStep(a, b, badLinesKey, p);
      CoreOfStep(BookOf(badLinesKey, xs + front), Merge(a, b), badLinesKey, p);
    }
  }

  lemma CoreCongruent(a: Book, b: Book, c: Book, d: Book)
    requires Core(a) == Core(c) && Core(b) == Core(d)
    ensures Core(Merge(a, b)) == Core(Merge(c, d))
  {
    CoreOfMerge(a, b);
    CoreOfMerge(c, d);
  }

  lemma {:induction false} CoresCongruent(books: seq<Book>, others: seq<Book>)
    requires |books| == |others| && forall i :: 0 <= i < |books| ==> Core(books[i]) == Core(others[i])
    ensures Core(MergeAll(books)) == Core(MergeAll(others))
  {
    hide Core, Merge;
    if books != [] {
      var n := |books| - 1;
      CoresCongruent(books[..n], others[..n]);
      CoreCongruent(MergeAll(books[..n]), books[n], MergeAll(others[..n]), others[n]);
    }
  }

  /** The ledgers of consecutive segments together have the core of the whole. */
  lemma {:induction false} SegmentsMerge(badLinesKey: string, segments: seq<seq<string>>, books: seq<Book>)
    requires |books| == |segments|
    requires forall i :: 0 <= i < |books| ==> Core(books[i]) == Core(BookOf(badLinesKey, segments[i]))
    ensures Core(MergeAll(books)) == Core(BookOf(badLinesKey, Flatten(segments)))
  {
    hide Core, Merge, BufferLine;
    if books != [] {
      var n := |books| - 1;
      SegmentsMerge(badLinesKey, segments[..n], books[..n]);
      CoreCongruent(MergeAll(books[..n]), books[n],
                    BookOf(badLinesKey, Flatten(segments[..n])), BookOf(badLinesKey, segments[n]));
      AppendMerges(badLinesKey, Flatten(segments[..n]), segments[n]);
    }
  }
}
