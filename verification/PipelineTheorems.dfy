/**
 What holds of the aggregator in every run, for any number of workers.
 */
module PipelineTheorems {
  import opened Collections
  import opened Config
  import opened LedgerModel
  import opened LedgerMeaning
  import opened Routing
  import opened Sharding
  import opened WorkerMachine
  import opened WorkerTheorems
  import opened Pipeline
  import opened PipelineInvariants

  ghost predicate RunReaches(u: Setup, y: System)
    requires Fits(u)
  {
    exists systems, labels :: IsRun(u, systems, labels) && systems[|labels|] == y
  }

  lemma RunReachesInv(u: Setup, y: System)
    requires Fits(u) && RunReaches(u, y)
    ensures SystemInv(u, y)
  {
    hide SystemInv, NextSystem;
    var systems, labels :| IsRun(u, systems, labels) && systems[|labels|] == y;
    RunKeepsInv(u, systems, labels, |labels|);
  }

  // ---------- each worker runs as the worker machine says ----------

  lemma {:induction false} WorkersReachable(u: Setup, systems: seq<System>, labels: seq<Label>, i: nat, w: nat)
    requires Fits(u) && IsRun(u, systems, labels) && i < |systems| && w < u.context.config.workers
    ensures |systems[i].workers| == u.context.config.workers
    ensures Reachable(u.context, systems[i].workers[w])
    decreases i
  {
    hide NextSystem, Next, Reachable;
    if i == 0 {
      InitialReachable(u.context);
    } else {
      WorkersReachable(u, systems, labels, i - 1, w);
      SystemStepMoves(u, systems[i - 1], labels[i - 1], systems[i]);
      if w == MovedWorker(u, labels[i - 1]) {
        ReachableStep(u.context, systems[i - 1].workers[w], ActionOf(u, labels[i - 1]), systems[i].workers[w]);
      }
    }
  }

  /** So everything proved of single workers holds of each worker in every run. */
  lemma WorkerReachable(u: Setup, y: System, w: nat)
    requires Fits(u) && RunReaches(u, y) && w < u.context.config.workers
    ensures |y.workers| == u.context.config.workers && Reachable(u.context, y.workers[w])
  {
    hide NextSystem, Reachable;
    var systems, labels :| IsRun(u, systems, labels) && systems[|labels|] == y;
    WorkersReachable(u, systems, labels, |labels|, w);
  }

  // ---------- the backends ----------

  /** At most one flush of any worker is inside the backend loop. */
  lemma BackendsExclusive(u: Setup, y: System, a: FlushId, b: FlushId)
    requires Fits(u) && RunReaches(u, y) && IsInside(y, a) && IsInside(y, b)
    ensures a == b
  {
    hide WorkersFine, LogMatches, FinishedMatches, FinishedInWindow, SubmissionsMatch, IsInside;
    RunReachesInv(u, y);
  }

  /**
   Every backend is given the same flushes in the same order: deliveries come in whole blocks, one
   delivery per backend for each finished flush, and the part of the block of the flush inside.
   */
  lemma BackendsSeeWholeFlushes(u: Setup, y: System)
    requires Fits(u) && RunReaches(u, y)
    ensures y.log == Flatten(Image(y.finished, WholeBlock(y, u.context.backends))) + OpenBlock(y)
    ensures forall id :: id in y.finished <==> IsDone(y, id)
    ensures forall p, q :: 0 <= p < q < |y.finished| ==> y.finished[p] != y.finished[q]
  {
    hide WorkersFine, LockMatches, FinishedInWindow, SubmissionsMatch, IsDone;
    RunReachesInv(u, y);
  }

  lemma {:induction false} FlattenMember<T>(xss: seq<seq<T>>, x: T) returns (i: nat)
    requires x in Flatten(xss)
    ensures i < |xss| && x in xss[i]
  {
    if x in xss[|xss| - 1] {
      i := |xss| - 1;
    } else {
      i := FlattenMember(xss[..|xss| - 1], x);
    }
  }

  lemma DeliveryOfFlush(u: Setup, y: System, d: Delivery)
    requires Fits(u) && RunReaches(u, y) && d in y.log
    ensures HasStarted(y, FlushId(d.worker, d.flush)) && d.ledger == LedgerOf(y, FlushId(d.worker, d.flush))
    ensures d.backend < u.context.backends
  {
    hide WorkersFine, FinishedInWindow, SubmissionsMatch, RunReaches, LedgerOf, Flatten;
    RunReachesInv(u, y);
    var blocks := Image(y.finished, WholeBlock(y, u.context.backends));
    if d in Flatten(blocks) {
      var i := FlattenMember(blocks, d);
      assert y.finished[i] in y.finished;
    } else {
      assert d in OpenBlock(y) && IsInside(y, y.lock.value);
      InsideWithin(u, y, y.lock.value);
    }
  }

  lemma InsideWithin(u: Setup, y: System, id: FlushId)
    requires Fits(u) && RunReaches(u, y) && IsInside(y, id)
    ensures DeliveredSoFar(y, id) <= u.context.backends
  {
    hide LockMatches, LogMatches, FinishedMatches, FinishedInWindow, SubmissionsMatch, FlushesMatch, LedgerMatches,
      InOrder, InterruptsCover, SegmentsNotEmpty, PublishedMatches, LastSegmentIsCurrent, SubmissionsCounted,
      RunReaches;
    RunReachesInv(u, y);
  }

  /** What a backend is given is the processed copy of the ledger of the lines of that flush, complete. */
  lemma BackendsGivenLedgers(u: Setup, y: System, d: Delivery)
    requires Fits(u) && RunReaches(u, y) && d in y.log
    ensures d.worker < |y.workers| && d.backend < u.context.backends
    ensures var s := y.workers[d.worker];
            && d.flush < |s.flushes| == |s.history.segments|
            && d.ledger == s.flushes[d.flush].ledger
            && Buffered(BookOf(u.context.config.BadLinesKey(), s.history.segments[d.flush]))
            && d.ledger == ProcessBook(BookOf(u.context.config.BadLinesKey(), s.history.segments[d.flush]),
                                       u.context.config, s.flushes[d.flush].elapsed).(frequency := map[])
  {
    hide LockMatches, LogMatches, FinishedMatches, FinishedInWindow, SubmissionsMatch, LedgerMatches, InOrder,
      InterruptsCover, SegmentsNotEmpty, PublishedMatches, LastSegmentIsCurrent, SubmissionsCounted, RunReaches,
      FlushersJoined, BookOf, ProcessBook, Buffered;
    DeliveryOfFlush(u, y, d);
    RunReachesInv(u, y);
  }

  ghost predicate HasStarted(y: System, id: FlushId) {
    IsInside(y, id) || IsDone(y, id)
  }

  /**
   A flush has gone through all backends before the next but one of its worker enters them, and
   finishes before it finishes.
   */
  lemma FlushOrderWindow(u: Setup, y: System, w: nat, i: nat, j: nat)
    requires Fits(u) && RunReaches(u, y) && w < u.context.config.workers && i + 2 <= j
    ensures HasStarted(y, FlushId(w, j)) ==> FlushId(w, i) in y.finished
    ensures forall p, q | 0 <= p < |y.finished| && 0 <= q < |y.finished| ::
              y.finished[p] == FlushId(w, i) && y.finished[q] == FlushId(w, j) ==> p < q
  {
    hide WorkersFine, LockMatches, LogMatches, SubmissionsMatch, Reachable;
    RunReachesInv(u, y);
    WorkerReachable(u, y, w);
    FlusherWindow(u.context, y.workers[w]);
  }

  // ---------- sharding is transparent ----------

  /** Nothing dropped, nothing flushed, and all queues and hands empty. */
  ghost predicate Drained(y: System) {
    forall w :: 0 <= w < |y.workers| ==>
      y.workers[w].dropped == 0 && y.workers[w].flushes == [] && y.workers[w].queue == [] && y.workers[w].phase.Idle?
  }

  ghost function Ledgers(y: System): (books: seq<Book>)
    ensures |books| == |y.workers|
  {
    seq(|y.workers|, w requires 0 <= w < |y.workers| => y.workers[w].ledger)
  }

  lemma DrainedLedger(c: Context, s: WorkerState)
    requires c.config.WellFormed() && Inv(c, s)
    requires s.dropped == 0 && s.flushes == [] && s.queue == [] && s.phase.Idle?
    ensures s.ledger == BookOf(c.config.BadLinesKey(), s.history.submitted)
  {
    hide BookOf, Buffered, ProcessBook, FlushersJoined, InterruptsCover, PublishedMatches, LastSegmentIsCurrent;
    assert s.history.segments == [];
    assert s.history.submitted == [] + s.history.current + [] + [];
    assert [] + s.history.current + [] + [] == s.history.current;
  }

  lemma DrainedLedgers(u: Setup, y: System)
    requires Fits(u) && SystemInv(u, y) && Drained(y)
    ensures Ledgers(y) == ShardBooks(y.consumed, WorkerFor(u.context.config, u.hash), Enqueued(u.context.config),
                                     u.context.config.BadLinesKey(), u.context.config.workers)
  {
    hide BookOf, Inv, LockMatches, LogMatches, FinishedMatches, FinishedInWindow, Share, WorkerFor, Enqueued;
    forall w | 0 <= w < |y.workers|
      ensures y.workers[w].ledger
           == BookOf(u.context.config.BadLinesKey(),
                     Share(y.consumed, RoutedTo(WorkerFor(u.context.config, u.hash), w), Enqueued(u.context.config)))
    {
      DrainedLedger(u.context, y.workers[w]);
    }
  }

  lemma WorkersInRange(config: AggregatorConfig, hash: StringHash)
    requires config.workers >= 1
    ensures forall x :: WorkerFor(config, hash)(x) < config.workers
  {
  }

  /**
   For any number of workers and any interleaving without drops and flushes, once the queues are
   empty the workers' ledgers together are the ledger of one worker fed everything in order.
   */
  lemma ShardingTransparent(u: Setup, y: System)
    requires Fits(u) && RunReaches(u, y) && Drained(y)
    ensures MergeAll(Ledgers(y))
         == BookOf(u.context.config.BadLinesKey(), Image(y.consumed, Enqueued(u.context.config)))
  {
    hide BookOf, SystemInv, Drained, WorkerFor, Enqueued, RoutedByName, Ledgers, ShardBooks, MergeAll;
    RunReachesInv(u, y);
    DrainedLedgers(u, y);
    EnqueuedRoutedByName(u.context.config, u.hash);
    WorkersInRange(u.context.config, u.hash);
    ShardsMerge(y.consumed, WorkerFor(u.context.config, u.hash), Enqueued(u.context.config),
                OwnerOfName(u.context.config, u.hash), u.context.config.BadLinesKey(), u.context.config.workers);
  }

  /** And no metric name is in the ledgers of two workers; only the bad-lines counter may be. */
  lemma ShardedNamesDisjoint(u: Setup, y: System, v: nat, w: nat)
    requires Fits(u) && RunReaches(u, y) && Drained(y)
    requires v < u.context.config.workers && w < u.context.config.workers && v != w
    ensures |y.workers| == u.context.config.workers
    ensures var a, b := y.workers[v].ledger, y.workers[w].ledger;
            && a.frequency.Keys !! b.frequency.Keys
            && a.counters.Keys * b.counters.Keys <= {u.context.config.BadLinesKey()}
            && a.timers.Keys !! b.timers.Keys && a.timerCounters.Keys !! b.timerCounters.Keys
            && a.gauges.Keys !! b.gauges.Keys && a.sets.Keys !! b.sets.Keys
  {
    hide BookOf, LockMatches, LogMatches, FinishedMatches, FinishedInWindow, SubmissionsMatch, Inv, Drained,
      WorkerFor, Enqueued, RoutedByName, Share;
    RunReachesInv(u, y);
    DrainedLedgers(u, y);
    EnqueuedRoutedByName(u.context.config, u.hash);
    ShardsDisjoint(y.consumed, WorkerFor(u.context.config, u.hash), Enqueued(u.context.config),
                   OwnerOfName(u.context.config, u.hash), u.context.config.BadLinesKey(), v, w);
    assert Ledgers(y)[v] == y.workers[v].ledger && Ledgers(y)[w] == y.workers[w].ledger;
  }
}
