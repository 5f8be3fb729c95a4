/**
 Gauges and flushes. A new ledger starts every gauge from 0, so a signed change that comes after a
 flush loses what the gauge stood at before. When exactly that happens, for two ledgers, for all
 ledgers of a worker, and for those of all workers.
 */
module GaugeFlushes {
  import opened Collections
  import opened Config
  import opened Conservation
  import opened GaugeOrder
  import opened LedgerMeaning
  import opened LedgerModel
  import opened MetricLine
  import opened Pipeline
  import opened PipelineTheorems
  import opened Routing
  import opened Sharding
  import opened WorkerMachine
  import opened WorkerRuns
  import opened WorkerTheorems

  import O = Overtaking

  // ---------- one flush ----------

  ghost predicate Fed(lines: seq<string>, k: string) {
    Filter(lines, FedBy(Gauge, k)) != []
  }

  ghost predicate Written(lines: seq<string>, k: string) {
    Filter(lines, OverwrittenBy(k)) != []
  }

  /** The lines only change gauge `k`, which stood at other than 0 before them. */
  ghost predicate Loses(gauges: map<string, real>, lines: seq<string>, k: string) {
    Fed(lines, k) && !Written(lines, k) && Get(gauges, k, 0.0) != 0.0
  }

  lemma GaugeStep(gauges: map<string, real>, p: Parsed, k: string)
    ensures k in NextGauges(gauges, p) <==> k in gauges || Feeds(p, Gauge, k)
    ensures Get(NextGauges(gauges, p), k, 0.0)
         == if Overwrites(p, k) then ValueOf(p) else Get(gauges, k, 0.0) + GaugePart(p, k)
    ensures Overwrites(p, k) ==> Feeds(p, Gauge, k)
    ensures !Feeds(p, Gauge, k) ==> GaugePart(p, k) == 0.0
  {
  }

  /** A gauge after some lines, and what it would be had they come first. */
  lemma {:induction false} GaugeFromZero(gauges: map<string, real>, lines: seq<string>, k: string)
    ensures var after, anew := GaugesAfter(gauges, lines), GaugesAfter(map[], lines);
            && (k in anew <==> Fed(lines, k)) && (k in after <==> k in gauges || Fed(lines, k))
            && (Written(lines, k) ==> Fed(lines, k))
            && Get(after, k, 0.0) == Get(anew, k, 0.0) + if Written(lines, k) then 0.0 else Get(gauges, k, 0.0)
  {
    hide Classify, NextGauges, Feeds, Overwrites, GaugePart, ValueOf;
    if lines != [] {
      var front, p := lines[..|lines| - 1], Classify(lines[|lines| - 1]);
      GaugeFromZero(gauges, front, k);
      GaugeStep(GaugesAfter(gauges, front), p, k);
      GaugeStep(GaugesAfter(map[], front), p, k);
    }
  }

  /** Gauge `k` is there in both, with one value, or in neither. */
  ghost predicate SameGauge(g: map<string, real>, h: map<string, real>, k: string) {
    (k in g <==> k in h) && Get(g, k, 0.0) == Get(h, k, 0.0)
  }

  lemma SameGauges(g: map<string, real>, h: map<string, real>)
    ensures g == h <==> forall k :: SameGauge(g, h, k)
  {
    if forall k :: SameGauge(g, h, k) {
      forall k
        ensures k in g <==> k in h
        ensures k in g ==> g[k] == h[k]
      {
        assert SameGauge(g, h, k);
      }
      assert g.Keys == h.Keys;
    }
  }

  /** Gauge `k` of two ledgers put together, the first of which may have it wrong already. */
  lemma GaugeKeptIff(had: map<string, real>, gauges: map<string, real>, lines: seq<string>, k: string)
    ensures SameGauge(had + GaugesAfter(map[], lines), GaugesAfter(gauges, lines), k)
       <==> if Fed(lines, k) then !Loses(gauges, lines, k) else SameGauge(had, gauges, k)
  {
    hide Fed, Written, GaugesAfter;
    GaugeFromZero(gauges, lines, k);
  }

  lemma SameAsItself(g: map<string, real>, k: string)
    ensures SameGauge(g, g, k)
  {
  }

  /** Cutting a stream in two keeps the gauges if and only if none is changed, unwritten, from other than 0. */
  lemma GaugesMergeIff(badLinesKey: string, xs: seq<string>, ys: seq<string>)
    ensures Merge(BookOf(badLinesKey, xs), BookOf(badLinesKey, ys)).gauges == BookOf(badLinesKey, xs + ys).gauges
       <==> forall k :: !Loses(BookOf(badLinesKey, xs).gauges, ys, k)
  {
    hide BookOf, GaugesAfter, Fed, Written, SameGauge;
    BookGauges(badLinesKey, xs);
    BookGauges(badLinesKey, ys);
    BookGauges(badLinesKey, xs + ys);
    GaugesAppend(map[], xs, ys);
    var gauges := BookOf(badLinesKey, xs).gauges;
    forall k
      ensures SameGauge(gauges + GaugesAfter(map[], ys), GaugesAfter(gauges, ys), k) <==> !Loses(gauges, ys, k)
    {
      GaugeKeptIff(gauges, gauges, ys, k);
      SameAsItself(gauges, k);
    }
    SameGauges(gauges + GaugesAfter(map[], ys), GaugesAfter(gauges, ys));
  }

  // ---------- any number of flushes ----------

  /** The gauges of the ledgers of consecutive segments, put together. */
  ghost function GaugesTogether(segments: seq<seq<string>>): map<string, real> {
    if segments == [] then map[]
    else GaugesTogether(segments[..|segments| - 1]) + GaugesAfter(map[], segments[|segments| - 1])
  }

  /** The last segment to touch gauge `k` loses what it stood at. */
  ghost predicate Lost(segments: seq<seq<string>>, k: string) {
    if segments == [] then false
    else
      var front, last := segments[..|segments| - 1], segments[|segments| - 1];
      if Fed(last, k) then Loses(GaugesAfter(map[], Flatten(front)), last, k) else Lost(front, k)
  }

  lemma {:induction false} GaugeTogetherIff(segments: seq<seq<string>>, k: string)
    ensures SameGauge(GaugesTogether(segments), GaugesAfter(map[], Flatten(segments)), k) <==> !Lost(segments, k)
  {
    hide Fed, Loses, SameGauge, NextGauges, Classify;
    if segments == [] {
      SameAsItself(map[], k);
    } else {
      hide GaugesAfter;
      var front, last := segments[..|segments| - 1], segments[|segments| - 1];
      GaugeTogetherIff(front, k);
      GaugesAppend(map[], Flatten(front), last);
      GaugeKeptIff(GaugesTogether(front), GaugesAfter(map[], Flatten(front)), last, k);
    }
  }

  ghost predicate NoneLost(segments: seq<seq<string>>) {
    forall k :: !Lost(segments, k)
  }

  /** The segments' ledgers together have the gauges of the whole if and only if none is lost. */
  lemma GaugesTogetherIff(segments: seq<seq<string>>)
    ensures GaugesTogether(segments) == GaugesAfter(map[], Flatten(segments)) <==> NoneLost(segments)
  {
    hide GaugesTogether, GaugesAfter, Flatten, Lost, SameGauge;
    var whole, together := GaugesAfter(map[], Flatten(segments)), GaugesTogether(segments);
    forall k
      ensures SameGauge(together, whole, k) <==> !Lost(segments, k)
    {
      GaugeTogetherIff(segments, k);
    }
    SameGauges(together, whole);
  }

  lemma {:induction false} MergedGauges(books: seq<Book>, segments: seq<seq<string>>)
    requires |books| == |segments|
    requires forall i :: 0 <= i < |books| ==> books[i].gauges == GaugesAfter(map[], segments[i])
    ensures MergeAll(books).gauges == GaugesTogether(segments)
  {
    hide GaugesAfter;
    if books != [] {
      MergedGauges(books[..|books| - 1], segments[..|segments| - 1]);
    }
  }

  // ---------- one worker ----------

  /** All segments of a worker, the one it is filling last. */
  function Segments(s: WorkerState): seq<seq<string>> {
    s.history.segments + [Unflushed(s)]
  }

  lemma AllGauges(c: Context, s: WorkerState)
    requires c.config.WellFormed() && Reachable(c, s)
    ensures AllBooks(s).gauges == GaugesTogether(Segments(s))
  {
    hide BookOf, Buffered, ProcessBook, MergeAll, GaugesAfter, GaugesTogether, Reachable, InOrder, FlushersJoined,
      InterruptsCover, SegmentsNotEmpty, PublishedMatches, LastSegmentIsCurrent, SubmissionsCounted;
    ReachableInv(c, s);
    var key := c.config.BadLinesKey();
    forall i | 0 <= i < |s.flushes|
      ensures FlushedBooks(s.flushes)[i].gauges == GaugesAfter(map[], s.history.segments[i])
    {
      ProcessKeepsGauges(BookOf(key, s.history.segments[i]), c.config, s.flushes[i].elapsed);
      BookGauges(key, s.history.segments[i]);
    }
    MergedGauges(FlushedBooks(s.flushes), s.history.segments);
    OwnGauges(c, s);
    TogetherOneMore(s.history.segments, Unflushed(s));
  }

  lemma TogetherOneMore(segments: seq<seq<string>>, last: seq<string>)
    ensures GaugesTogether(segments + [last]) == GaugesTogether(segments) + GaugesAfter(map[], last)
  {
    assert (segments + [last])[..|segments|] == segments;
  }

  lemma ProcessKeepsGauges(b: Book, config: AggregatorConfig, elapsed: int)
    requires config.WellFormed() && Buffered(b)
    ensures ProcessBook(b, config, elapsed).gauges == b.gauges == CopyBook(ProcessBook(b, config, elapsed)).gauges
  {
  }

  lemma OwnGauges(c: Context, s: WorkerState)
    requires c.config.WellFormed() && LedgerMatches(c, s)
    ensures OwnBook(s).gauges == GaugesAfter(map[], Unflushed(s))
  {
    hide BookOf, Buffered, ProcessBook;
    var key := c.config.BadLinesKey();
    BookGauges(key, s.history.current);
    if s.phase.Processed? {
      ProcessKeepsGauges(BookOf(key, s.history.current), c.config, s.phase.elapsed);
    }
  }

  /**
   All ledgers of a worker together have the gauges of the lines it has buffered if and only if for no
   gauge the last ledger to touch it loses what it stood at.
   */
  lemma WorkerGaugesIff(c: Context, s: WorkerState)
    requires c.config.WellFormed() && Reachable(c, s)
    ensures AllBooks(s).gauges == BookOf(c.config.BadLinesKey(), Flatten(s.history.segments) + Unflushed(s)).gauges
       <==> NoneLost(Segments(s))
  {
    hide BookOf, AllBooks, GaugesTogether, GaugesAfter, Reachable, NoneLost, Flatten, Unflushed;
    AllGauges(c, s);
    FlattenSnoc(s.history.segments, Unflushed(s));
    BookGauges(c.config.BadLinesKey(), Flatten(Segments(s)));
    GaugesTogetherIff(Segments(s));
  }

  // ---------- all workers ----------

  lemma {:induction false} TogetherKeys(segments: seq<seq<string>>)
    ensures GaugesTogether(segments).Keys == GaugesAfter(map[], Flatten(segments)).Keys
  {
    hide Classify, NextGauges, Fed, Written, Get;
    if segments != [] {
      hide GaugesAfter;
      var front, last := segments[..|segments| - 1], segments[|segments| - 1];
      TogetherKeys(front);
      GaugesAppend(map[], Flatten(front), last);
      forall k
        ensures k in GaugesAfter(GaugesAfter(map[], Flatten(front)), last)
           <==> k in GaugesAfter(map[], Flatten(front)) || k in GaugesAfter(map[], last)
      {
        GaugeFromZero(GaugesAfter(map[], Flatten(front)), last, k);
      }
    }
  }

  lemma {:induction false} MergedGauge(books: seq<Book>, i: nat, k: string)
    requires i < |books| && k in books[i].gauges && forall j :: i < j < |books| ==> k !in books[j].gauges
    ensures k in MergeAll(books).gauges && MergeAll(books).gauges[k] == books[i].gauges[k]
    decreases |books|
  {
    if i < |books| - 1 {
      MergedGauge(books[..|books| - 1], i, k);
    }
  }

  lemma {:induction false} MergedSame(books: seq<Book>, others: seq<Book>)
    requires |books| == |others| && forall i :: 0 <= i < |books| ==> books[i].gauges == others[i].gauges
    ensures MergeAll(books).gauges == MergeAll(others).gauges
  {
    if books != [] {
      MergedSame(books[..|books| - 1], others[..|others| - 1]);
    }
  }

  ghost predicate GaugesApart(books: seq<Book>) {
    forall i, j :: 0 <= i < j < |books| ==> books[i].gauges.Keys !! books[j].gauges.Keys
  }

  /** Ledgers without common gauges have the right ones together only if each has. */
  lemma MergedSameIff(books: seq<Book>, others: seq<Book>)
    requires |books| == |others| && GaugesApart(others)
    requires forall i :: 0 <= i < |books| ==> books[i].gauges.Keys == others[i].gauges.Keys
    ensures MergeAll(books).gauges == MergeAll(others).gauges
       <==> forall i :: 0 <= i < |books| ==> books[i].gauges == others[i].gauges
  {
    hide MergeAll;
    if MergeAll(books).gauges == MergeAll(others).gauges {
      forall i, k | 0 <= i < |books| && k in books[i].gauges
        ensures books[i].gauges[k] == others[i].gauges[k]
      {
        MergedGauge(books, i, k);
        MergedGauge(others, i, k);
      }
    } else if forall i :: 0 <= i < |books| ==> books[i].gauges == others[i].gauges {
      MergedSame(books, others);
    }
  }

  lemma SettledGauges(u: Setup, y: System, w: nat)
    requires Fits(u) && RunReaches(u, y) && Settled(y) && w < |y.workers|
    ensures var config := u.context.config;
            var share := Share(y.consumed, RoutedTo(WorkerFor(config, u.hash), w), Enqueued(config));
            && AllBooks(y.workers[w]).gauges.Keys == BookOf(config.BadLinesKey(), share).gauges.Keys
            && (AllBooks(y.workers[w]).gauges == BookOf(config.BadLinesKey(), share).gauges
                <==> NoneLost(Segments(y.workers[w])))
  {
    hide BookOf, AllBooks, LockMatches, LogMatches, FinishedMatches, FinishedInWindow, FlushesMatch, LedgerMatches,
      FlushersJoined, InterruptsCover, SegmentsNotEmpty, PublishedMatches, LastSegmentIsCurrent, WorkerFor, Enqueued,
      Share, Reachable, RunReaches, NoneLost, GaugesAfter, GaugesTogether, Flatten, Unflushed;
    RunReachesInv(u, y);
    WorkerReachable(u, y, w);
    var s := y.workers[w];
    var mine := Flatten(s.history.segments) + Unflushed(s);
    assert s.history.submitted == mine + [] + [] && mine + [] + [] == mine;
    WorkerGaugesIff(u.context, s);
    AllGauges(u.context, s);
    TogetherKeys(Segments(s));
    FlattenSnoc(s.history.segments, Unflushed(s));
    BookGauges(u.context.config.BadLinesKey(), mine);
  }

  lemma ShardGaugesApart(config: AggregatorConfig, hash: StringHash, arrivals: seq<string>, n: nat)
    requires config.WellFormed()
    ensures GaugesApart(ShardBooks(arrivals, WorkerFor(config, hash), Enqueued(config), config.BadLinesKey(), n))
  {
    hide BookOf, Share, WorkerFor, Enqueued, RoutedByName;
    EnqueuedRoutedByName(config, hash);
    forall v, w | 0 <= v < w < n
      ensures BookOf(config.BadLinesKey(), Share(arrivals, RoutedTo(WorkerFor(config, hash), v),
                                                 Enqueued(config))).gauges.Keys
           !! BookOf(config.BadLinesKey(), Share(arrivals, RoutedTo(WorkerFor(config, hash), w),
                                                 Enqueued(config))).gauges.Keys
    {
      ShardsDisjoint(arrivals, WorkerFor(config, hash), Enqueued(config), OwnerOfName(config, hash),
                     config.BadLinesKey(), v, w);
    }
  }

  lemma {:induction false} MergedKeys(books: seq<Book>, others: seq<Book>)
    requires |books| == |others| && forall i :: 0 <= i < |books| ==> books[i].gauges.Keys == others[i].gauges.Keys
    ensures MergeAll(books).gauges.Keys == MergeAll(others).gauges.Keys
  {
    if books != [] {
      var n := |books| - 1;
      MergedKeys(books[..n], others[..n]);
      assert MergeAll(books).gauges.Keys == MergeAll(books[..n]).gauges.Keys + books[n].gauges.Keys;
      assert MergeAll(others).gauges.Keys == MergeAll(others[..n]).gauges.Keys + others[n].gauges.Keys;
    }
  }

  /** No worker's flushes lose a gauge. */
  ghost predicate NoGaugeLost(y: System) {
    forall w :: 0 <= w < |y.workers| ==> NoneLost(Segments(y.workers[w]))
  }

  /**
   End to end: all ledgers of all workers together have the gauges of one ledger fed everything
   received if and only if no worker's flushes lose one.
   */
  lemma SystemGaugesIff(u: Setup, y: System)
    requires Fits(u) && RunReaches(u, y) && Settled(y)
    ensures MergeAll(BooksOfWorkers(y)).gauges
         == BookOf(u.context.config.BadLinesKey(), Image(y.consumed, Enqueued(u.context.config))).gauges
       <==> NoGaugeLost(y)
    ensures MergeAll(BooksOfWorkers(y)).gauges.Keys
         == BookOf(u.context.config.BadLinesKey(), Image(y.consumed, Enqueued(u.context.config))).gauges.Keys
  {
    hide BookOf, MergeAll, AllBooks, RunReaches, Settled, Share, WorkerFor, Enqueued, RoutedByName, NoneLost, Segments,
      GaugesApart;
    var config, n := u.context.config, |y.workers|;
    var shards := ShardBooks(y.consumed, WorkerFor(config, u.hash), Enqueued(config), config.BadLinesKey(), n);
    RunHasWorkers(u, y);
    forall w | 0 <= w < n
      ensures BooksOfWorkers(y)[w].gauges.Keys == shards[w].gauges.Keys
      ensures BooksOfWorkers(y)[w].gauges == shards[w].gauges <==> NoneLost(Segments(y.workers[w]))
    {
      SettledGauges(u, y, w);
    }
    ShardGaugesApart(config, u.hash, y.consumed, n);
    MergedSameIff(BooksOfWorkers(y), shards);
    MergedKeys(BooksOfWorkers(y), shards);
    EnqueuedRoutedByName(config, u.hash);
    WorkersInRange(config, u.hash);
    ShardsMerge(y.consumed, WorkerFor(config, u.hash), Enqueued(config), OwnerOfName(config, u.hash),
                config.BadLinesKey(), n);
  }

  // ---------- a run in which one is lost ----------

  /** A worker that sets a gauge to 5, flushes, and takes 1 off. */
  lemma LosingWorker(c: Context) returns (actions: seq<Action>, s: WorkerState)
    requires c.config.WellFormed()
    ensures actions == BufferRound(LoadLine(5)) + UpToSpawn(LoadLine(-1)) + REST_OF_ROUND && Runs(c, actions, s)
    ensures s.phase.Idle? && s.queue == [] && s.dropped == 0
    ensures s.history.segments == [[LoadLine(5)]] && s.history.current == [LoadLine(-1)]
    ensures s.history.submitted == [LoadLine(5), LoadLine(-1)]
  {
    hide LoadLine, Runs, BufferRound, UpToSpawn;
    var s1 := RunToBuffered(c, LoadLine(5));
    var s2 := RunToSpawn(c, BufferRound(LoadLine(5)), s1, LoadLine(-1));
    s := RunToIdle(c, BufferRound(LoadLine(5)) + UpToSpawn(LoadLine(-1)), s2);
    actions := BufferRound(LoadLine(5)) + UpToSpawn(LoadLine(-1)) + REST_OF_ROUND;
  }

  lemma LoadLinesPlain(u: Setup, w: nat, n: int)
    requires Fits(u) && -10 < n < 10 && w == OwnerOfName(u.context.config, u.hash)("load")
    ensures O.Plain(u, w, LoadLine(n))
  {
    hide Classify, LoadLine;
    LoadLineMeans(n);
    AcceptedShape(LoadLine(n));
  }

  lemma TogetherOfTwo(a: string, b: string)
    ensures GaugesTogether([[a], [b]]) == NextGauges(map[], Classify(a)) + NextGauges(map[], Classify(b))
  {
    hide Classify, NextGauges, GaugesAfter;
    GaugesOfTwo(a, b);
    GaugesOfTwo(b, a);
    assert [] + [[a]] == [[a]] && [[a]] + [[b]] == [[a], [b]];
    TogetherOneMore([], [a]);
    TogetherOneMore([[a]], [b]);
  }

  lemma LoadGauges()
    ensures GaugesAfter(map[], [LoadLine(5), LoadLine(-1)]) == map["load" := 4.0]
    ensures GaugesTogether([[LoadLine(5)], [LoadLine(-1)]]) == map["load" := -1.0]
  {
    hide Classify, GaugesAfter, GaugesTogether, LoadLine;
    LoadLineMeans(5);
    LoadLineMeans(-1);
    GaugesOfTwo(LoadLine(5), LoadLine(-1));
    TogetherOfTwo(LoadLine(5), LoadLine(-1));
  }

  lemma NoGaugesYet(u: Setup, y: System, v: nat)
    requires Fits(u) && RunReaches(u, y) && v < |y.workers| && y.workers[v] == Initial()
    ensures AllBooks(y.workers[v]).gauges == map[]
  {
    hide AllBooks, RunReaches, Reachable;
    RunHasWorkers(u, y);
    WorkerReachable(u, y, v);
    AllGauges(u.context, y.workers[v]);
    TogetherOneMore([], []);
  }

  lemma OnlyGauge(u: Setup, y: System, w: nat, k: string, v: real)
    requires Fits(u) && RunReaches(u, y) && w < |y.workers| && AllBooks(y.workers[w]).gauges == map[k := v]
    requires forall i :: 0 <= i < |y.workers| && i != w ==> y.workers[i] == Initial()
    ensures MergeAll(BooksOfWorkers(y)).gauges == map[k := v]
  {
    hide RunReaches, MergeAll, AllBooks;
    forall i | 0 <= i < |y.workers| && i != w
      ensures AllBooks(y.workers[i]).gauges == map[]
    {
      NoGaugesYet(u, y, i);
    }
    MergedOnly(BooksOfWorkers(y), w);
  }

  lemma {:induction false} MergedOnly(books: seq<Book>, w: nat)
    requires forall i :: 0 <= i < |books| && i != w ==> books[i].gauges == map[]
    ensures MergeAll(books).gauges == if w < |books| then books[w].gauges else map[]
  {
    if books != [] {
      MergedOnly(books[..|books| - 1], w);
    }
  }

  lemma LosingInput(u: Setup, w: nat)
    requires Fits(u) && w == OwnerOfName(u.context.config, u.hash)("load")
    ensures var lines := [LoadLine(5), LoadLine(-1)];
            BookOf(u.context.config.BadLinesKey(), Image(lines, Enqueued(u.context.config))).gauges
            == map["load" := 4.0]
  {
    hide LoadLine, BookOf, GaugesAfter, Enqueued, WorkerFor, OwnerOfName;
    var lines := [LoadLine(5), LoadLine(-1)];
    LoadLinesPlain(u, w, 5);
    LoadLinesPlain(u, w, -1);
    assert Image(lines, Enqueued(u.context.config)) == lines;
    LoadGauges();
    BookGauges(u.context.config.BadLinesKey(), lines);
  }

  lemma LosingLedgers(u: Setup, y: System, w: nat)
    requires Fits(u) && RunReaches(u, y) && w < |y.workers| && y.workers[w].phase.Idle?
    requires y.workers[w].history.segments == [[LoadLine(5)]] && y.workers[w].history.current == [LoadLine(-1)]
    requires forall v :: 0 <= v < |y.workers| && v != w ==> y.workers[v] == Initial()
    ensures MergeAll(BooksOfWorkers(y)).gauges == map["load" := -1.0]
  {
    hide RunReaches, LoadLine, MergeAll, AllBooks, Reachable, GaugesAfter, GaugesTogether, BooksOfWorkers;
    RunHasWorkers(u, y);
    WorkerReachable(u, y, w);
    AllGauges(u.context, y.workers[w]);
    assert Segments(y.workers[w]) == [[LoadLine(5)], [LoadLine(-1)]];
    LoadGauges();
    OnlyGauge(u, y, w, "load", -1.0);
  }

  /** So with a flush between "load:5|g" and "load:-1|g" the ledgers together say -1, not 4. */
  lemma GaugesCanBeLost(u: Setup) returns (y: System)
    requires Fits(u)
    ensures RunReaches(u, y) && Settled(y) && y.consumed == ["load:5|g", "load:-1|g"]
    ensures BookOf(u.context.config.BadLinesKey(), Image(y.consumed, Enqueued(u.context.config))).gauges
         == map["load" := 4.0]
    ensures MergeAll(BooksOfWorkers(y)).gauges == map["load" := -1.0]
  {
    hide RunReaches, O.FedOnly, LoadLine, BookOf, MergeAll, AllBooks, Next, Enqueued, BooksOfWorkers, BufferRound,
      UpToSpawn;
    var w := OwnerOfName(u.context.config, u.hash)("load");
    var actions, s := LosingWorker(u.context);
    LosingActionsFed(u, w);
    y := O.Lift(u, w, actions, s);
    LoadLinesShown();
    LosingInput(u, w);
    LosingLedgers(u, y, w);
  }

  lemma LosingActionsFed(u: Setup, w: nat)
    requires Fits(u) && w == OwnerOfName(u.context.config, u.hash)("load")
    ensures w < u.context.config.workers
    ensures O.FedOnly(u, w, BufferRound(LoadLine(5)) + UpToSpawn(LoadLine(-1)) + REST_OF_ROUND)
  {
    hide O.Plain, LoadLine;
    LoadLinesPlain(u, w, 5);
    LoadLinesPlain(u, w, -1);
  }
}
