/**
 Nothing is lost or made up across flushes. All ledgers of a worker, flushed and current, put
 together in order hold the counters, timers and sets of everything it has taken in; and all ledgers
 of all workers those of everything received.
 */
module Conservation {
  import opened Amounts
  import opened Collections
  import opened LedgerMeaning
  import opened LedgerMerge
  import opened LedgerModel
  import opened Pipeline
  import opened PipelineTheorems
  import opened Routing
  import opened Sharding
  import opened WorkerMachine
  import opened WorkerTheorems

  // ---------- one worker ----------

  ghost function FlushedBooks(flushes: seq<Flush>): (books: seq<Book>)
    ensures |books| == |flushes|
  {
    seq(|flushes|, i requires 0 <= i < |flushes| => flushes[i].ledger)
  }

  /** Once the flusher has its copy, the current ledger is no longer counted. */
  function OwnBook(s: WorkerState): Book {
    if s.phase.Spawned? || s.phase.Joined? || s.phase.Published? then EMPTY_BOOK else s.ledger
  }

  /** The flushed ledgers in order and the current one, as one. */
  ghost function AllBooks(s: WorkerState): Book {
    Merge(MergeAll(FlushedBooks(s.flushes)), OwnBook(s))
  }

  lemma FlushedCore(c: Context, s: WorkerState)
    requires c.config.WellFormed() && FlushesMatch(c, s)
    ensures Core(MergeAll(FlushedBooks(s.flushes)))
         == Core(BookOf(c.config.BadLinesKey(), Flatten(s.history.segments)))
  {
    hide BookOf, Buffered, ProcessBook, CopyBook, Core, MergeAll, Flatten;
    forall i | 0 <= i < |s.flushes|
      ensures Core(s.flushes[i].ledger) == Core(BookOf(c.config.BadLinesKey(), s.history.segments[i]))
    {
      CoreOfSnapshot(BookOf(c.config.BadLinesKey(), s.history.segments[i]), c.config, s.flushes[i].elapsed);
    }
    SegmentsMerge(c.config.BadLinesKey(), s.history.segments, FlushedBooks(s.flushes));
  }

  lemma OwnCore(c: Context, s: WorkerState)
    requires c.config.WellFormed() && LedgerMatches(c, s)
    ensures Core(OwnBook(s)) == Core(BookOf(c.config.BadLinesKey(), Unflushed(s)))
  {
    hide BufferLine, Buffered, ProcessBook, Core;
    if s.phase.Processed? {
      CoreOfSnapshot(BookOf(c.config.BadLinesKey(), s.history.current), c.config, s.phase.elapsed);
    }
  }

  /** With the lines still in hand and in the queue added, they are the ledger of all lines accepted. */
  lemma LedgersConserved(c: Context, s: WorkerState)
    requires c.config.WellFormed() && Reachable(c, s)
    ensures Core(BookOf(c.config.BadLinesKey(), s.history.accepted))
         == Core(Merge(AllBooks(s), BookOf(c.config.BadLinesKey(), InHand(s.phase) + s.queue)))
  {
    hide BookOf, Core, Merge, MergeAll, OwnBook, FlushesMatch, LedgerMatches, Flatten, Unflushed, Reachable,
      FlushersJoined, InterruptsCover, SegmentsNotEmpty, PublishedMatches, LastSegmentIsCurrent, SubmissionsCounted;
    ReachableInv(c, s);
    var key, flat := c.config.BadLinesKey(), Flatten(s.history.segments);
    var own, pending := Unflushed(s), InHand(s.phase) + s.queue;
    assert s.history.accepted == flat + own + pending;
    FlushedCore(c, s);
    OwnCore(c, s);
    AppendMerges(key, flat, own);
    CoreCongruent(MergeAll(FlushedBooks(s.flushes)), OwnBook(s), BookOf(key, flat), BookOf(key, own));
    AppendMerges(key, flat + own, pending);
    CoreCongruent(AllBooks(s), BookOf(key, pending), BookOf(key, flat + own), BookOf(key, pending));
  }

  /** So each counter of all ledgers and of the lines to come is its total over the lines accepted. */
  lemma CountsConserved(c: Context, s: WorkerState, k: string)
    requires c.config.WellFormed() && Reachable(c, s)
    ensures Plus(Get(AllBooks(s).counters, k, ZERO),
                 Sigma(InHand(s.phase) + s.queue, CounterParts(c.config.BadLinesKey(), k)))
         == Sigma(s.history.accepted, CounterParts(c.config.BadLinesKey(), k))
  {
    hide BookOf, AllBooks, Reachable, Sigma, CounterParts, CountedBy;
    LedgersConserved(c, s);
    CountersMean(c.config.BadLinesKey(), s.history.accepted, k);
    CountersMean(c.config.BadLinesKey(), InHand(s.phase) + s.queue, k);
    MergedCounter(AllBooks(s), BookOf(c.config.BadLinesKey(), InHand(s.phase) + s.queue), k);
  }

  lemma MergedCounter(a: Book, b: Book, k: string)
    ensures Get(Merge(a, b).counters, k, ZERO) == Plus(Get(a.counters, k, ZERO), Get(b.counters, k, ZERO))
  {
  }

  // ---------- all workers ----------

  /** Nothing dropped, and all queues and hands empty; there may have been any number of flushes. */
  ghost predicate Settled(y: System) {
    forall w :: 0 <= w < |y.workers| ==>
      y.workers[w].dropped == 0 && y.workers[w].queue == [] && y.workers[w].phase.Idle?
  }

  ghost function BooksOfWorkers(y: System): (books: seq<Book>)
    ensures |books| == |y.workers|
  {
    seq(|y.workers|, w requires 0 <= w < |y.workers| => AllBooks(y.workers[w]))
  }

  lemma SettledCore(u: Setup, y: System, w: nat)
    requires Fits(u) && RunReaches(u, y) && Settled(y) && w < |y.workers|
    ensures Core(AllBooks(y.workers[w]))
         == Core(BookOf(u.context.config.BadLinesKey(),
                        Share(y.consumed, RoutedTo(WorkerFor(u.context.config, u.hash), w),
                              Enqueued(u.context.config))))
  {
    hide BufferLine, Core, Merge, AllBooks, LockMatches, LogMatches, FinishedMatches, FinishedInWindow, FlushesMatch,
      LedgerMatches, InOrder, FlushersJoined, InterruptsCover, SegmentsNotEmpty, PublishedMatches, LastSegmentIsCurrent,
      WorkerFor, Enqueued, Share, Reachable, RunReaches;
    RunReachesInv(u, y);
    WorkerReachable(u, y, w);
    LedgersConserved(u.context, y.workers[w]);
    assert InHand(y.workers[w].phase) + y.workers[w].queue == [];
    MergeWithEmpty(AllBooks(y.workers[w]));
  }

  /**
   End to end: whatever the interleaving of lines, interrupts and flushes, all ledgers of all workers
   put together hold the counters, the timers with their samples in order of arrival, and the sets of
   one ledger fed everything received.
   */
  lemma FlushesTransparent(u: Setup, y: System)
    requires Fits(u) && RunReaches(u, y) && Settled(y)
    ensures Core(MergeAll(BooksOfWorkers(y)))
         == Core(BookOf(u.context.config.BadLinesKey(), Image(y.consumed, Enqueued(u.context.config))))
  {
    hide BookOf, Core, MergeAll, AllBooks, RunReaches, Settled, Share, WorkerFor, Enqueued, RoutedByName;
    var config, n := u.context.config, |y.workers|;
    var shards := ShardBooks(y.consumed, WorkerFor(config, u.hash), Enqueued(config), config.BadLinesKey(), n);
    RunHasWorkers(u, y);
    forall w | 0 <= w < n
      ensures Core(BooksOfWorkers(y)[w]) == Core(shards[w])
    {
      SettledCore(u, y, w);
    }
    CoresCongruent(BooksOfWorkers(y), shards);
    EnqueuedRoutedByName(config, u.hash);
    WorkersInRange(config, u.hash);
    ShardsMerge(y.consumed, WorkerFor(config, u.hash), Enqueued(config), OwnerOfName(config, u.hash),
                config.BadLinesKey(), n);
  }

  lemma RunHasWorkers(u: Setup, y: System)
    requires Fits(u) && RunReaches(u, y)
    ensures |y.workers| == u.context.config.workers
  {
    WorkerReachable(u, y, 0);
  }

  /** In particular each counter, over all flushes and workers, is its total over everything received. */
  lemma CountsEndToEnd(u: Setup, y: System, k: string)
    requires Fits(u) && RunReaches(u, y) && Settled(y)
    ensures Get(MergeAll(BooksOfWorkers(y)).counters, k, ZERO)
         == Sigma(Image(y.consumed, Enqueued(u.context.config)), CounterParts(u.context.config.BadLinesKey(), k))
  {
    hide BookOf, MergeAll, AllBooks, RunReaches, Settled, Sigma, CounterParts, CountedBy;
    FlushesTransparent(u, y);
    CountersMean(u.context.config.BadLinesKey(), Image(y.consumed, Enqueued(u.context.config)), k);
  }
}
