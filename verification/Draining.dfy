/**
 The aggregator comes to rest. While no line arrives and no flag is raised every step uses up some of
 the work that is left, and as long as there is any some thread can take a step: whatever the order
 of the threads, all lines are buffered and all flushes delivered in the end.
 */
module Draining {
  import opened Collections
  import opened Conservation
  import opened LedgerMeaning
  import opened LedgerMerge
  import opened LedgerModel
  import opened Overtaking
  import opened Pipeline
  import opened PipelineInvariants
  import opened PipelineTheorems
  import opened Routing
  import opened Sharding
  import opened WorkerInvariants
  import opened WorkerMachine

  // ---------- the work that is left ----------

  /** The steps a flush has to take: entering, one delivery for each backend, leaving. */
  function FlushWork(c: Context, status: FlushStatus): int {
    match status
    case Waiting => c.backends + 2
    case Inside(delivered) => c.backends - delivered + 1
    case Done => 0
  }

  /** The steps to the end of the round, those of the flush it may start included. */
  function PhaseWork(c: Context, p: Phase): int {
    match p
    case Idle => 0
    case MustBuffer(_) => 1
    case Renewed(_) => 2
    case Published(_, _) => 3
    case Joined(_, _) => 4
    case Spawned(_, _) => 5
    case Processed(_, _) => c.backends + 8
    case MustFlush(_) => c.backends + 9
    case Popped(_) => c.backends + 10
  }

  function FlushesWork(c: Context, flushes: seq<Flush>): int {
    if flushes == [] then 0
    else FlushesWork(c, flushes[..|flushes| - 1]) + FlushWork(c, flushes[|flushes| - 1].status)
  }

  function WorkLeft(c: Context, s: WorkerState): int {
    |s.queue| * (c.backends + 11) + PhaseWork(c, s.phase) + FlushesWork(c, s.flushes)
  }

  function TotalWork(c: Context, workers: seq<WorkerState>): int {
    if workers == [] then 0
    else TotalWork(c, workers[..|workers| - 1]) + WorkLeft(c, workers[|workers| - 1])
  }

  lemma {:induction false} FlushesWorkUpdate(c: Context, flushes: seq<Flush>, i: nat, f: Flush)
    requires i < |flushes|
    ensures FlushesWork(c, flushes[i := f])
         == FlushesWork(c, flushes) - FlushWork(c, flushes[i].status) + FlushWork(c, f.status)
  {
    var n := |flushes| - 1;
    if i < n {
      FlushesWorkUpdate(c, flushes[..n], i, f);
      assert flushes[i := f][..n] == flushes[..n][i := f];
    } else {
      assert flushes[i := f][..n] == flushes[..n];
    }
  }

  lemma FlushesWorkSnoc(c: Context, flushes: seq<Flush>, f: Flush)
    ensures FlushesWork(c, flushes + [f]) == FlushesWork(c, flushes) + FlushWork(c, f.status)
  {
    assert (flushes + [f])[..|flushes|] == flushes;
  }

  lemma {:induction false} TotalWorkUpdate(c: Context, workers: seq<WorkerState>, w: nat, t: WorkerState)
    requires w < |workers|
    ensures TotalWork(c, workers[w := t]) == TotalWork(c, workers) - WorkLeft(c, workers[w]) + WorkLeft(c, t)
  {
    hide WorkLeft;
    var n := |workers| - 1;
    if w < n {
      TotalWorkUpdate(c, workers[..n], w, t);
      assert workers[w := t][..n] == workers[..n][w := t];
    } else {
      assert workers[w := t][..n] == workers[..n];
    }
  }

  lemma {:induction false} FlushesWorkNat(c: Context, flushes: seq<Flush>)
    requires forall i :: 0 <= i < |flushes| && flushes[i].status.Inside? ==> flushes[i].status.delivered <= c.backends
    ensures FlushesWork(c, flushes) >= 0
  {
    if flushes != [] {
      FlushesWorkNat(c, flushes[..|flushes| - 1]);
    }
  }

  lemma WorkLeftNat(c: Context, s: WorkerState)
    requires c.config.WellFormed() && Inv(c, s)
    ensures WorkLeft(c, s) >= 0
  {
    hide FlushesMatch, LedgerMatches, InOrder, InterruptsCover, SegmentsNotEmpty, PublishedMatches,
      LastSegmentIsCurrent, SubmissionsCounted, FlushesWork;
    FlushesWorkNat(c, s.flushes);
  }

  lemma {:induction false} TotalWorkNat(c: Context, workers: seq<WorkerState>)
    requires c.config.WellFormed() && forall w :: 0 <= w < |workers| ==> Inv(c, workers[w])
    ensures TotalWork(c, workers) >= 0
  {
    hide Inv, WorkLeft;
    if workers != [] {
      TotalWorkNat(c, workers[..|workers| - 1]);
      WorkLeftNat(c, workers[|workers| - 1]);
    }
  }

  // ---------- every step uses some of it up ----------

  predicate QuietAction(a: Action) {
    !a.Submit? && !a.Interrupt?
  }

  /** A step of a worker or a flusher, with nothing new coming in. */
  predicate Quiet(l: Label) {
    !l.Consume? && (l.Work? ==> QuietAction(l.action))
  }

  lemma StepUsesWork(c: Context, s: WorkerState, a: Action, t: WorkerState)
    requires Step(c, s, a, t) && QuietAction(a)
    ensures WorkLeft(c, t) < WorkLeft(c, s)
  {
    hide ProcessBook, BufferLine, BadLinesSeen, Buffered, CopyBook, FlushesWork;
    match a {
      case Spawn => FlushesWorkSnoc(c, s.flushes, t.flushes[|s.flushes|]);
      case Start(i) => FlushesWorkUpdate(c, s.flushes, i, t.flushes[i]);
      case Deliver(i) => FlushesWorkUpdate(c, s.flushes, i, t.flushes[i]);
      case Finish(i) => FlushesWorkUpdate(c, s.flushes, i, t.flushes[i]);
      case Pop => assert |s.queue| == |t.queue| + 1;
      case _ =>
    }
  }

  lemma SystemStepUsesWork(u: Setup, y: System, l: Label, z: System)
    requires Fits(u) && SystemStep(u, y, l, z) && Quiet(l)
    ensures TotalWork(u.context, z.workers) < TotalWork(u.context, y.workers)
  {
    hide SystemStep, Step, WorkLeft;
    SystemStepMoves(u, y, l, z);
    var w := MovedWorker(u, l);
    StepUsesWork(u.context, y.workers[w], ActionOf(u, l), z.workers[w]);
    TotalWorkUpdate(u.context, y.workers, w, z.workers[w]);
  }

  /** What a quiet step leaves alone. */
  lemma SystemStepKeepsInput(u: Setup, y: System, l: Label, z: System)
    requires Fits(u) && SystemStep(u, y, l, z) && Quiet(l)
    ensures z.consumed == y.consumed && Drops(z) == Drops(y)
  {
    hide SystemStep, Step;
    SystemStepMoves(u, y, l, z);
    var w := MovedWorker(u, l);
    FrameOfStep(u.context, y.workers[w], ActionOf(u, l), z.workers[w]);
  }

  function Drops(y: System): (drops: seq<nat>) {
    seq(|y.workers|, w requires 0 <= w < |y.workers| => y.workers[w].dropped)
  }

  predicate AllQuiet(labels: seq<Label>) {
    forall i :: 0 <= i < |labels| ==> Quiet(labels[i])
  }

  /** So without input a run ends, after no more steps than there was work. */
  lemma {:induction false} QuietRunsEnd(u: Setup, y: System, labels: seq<Label>, z: System)
    requires Fits(u) && RunReaches(u, y) && Continue(u, y, labels) == Some(z) && AllQuiet(labels)
    ensures |labels| + TotalWork(u.context, z.workers) <= TotalWork(u.context, y.workers)
    ensures TotalWork(u.context, z.workers) >= 0 && z.consumed == y.consumed && Drops(z) == Drops(y)
  {
    hide NextSystem, RunReaches, TotalWork, Drops, Quiet;
    if labels == [] {
      ReachedWorkNat(u, y);
    } else {
      var front, last := labels[..|labels| - 1], labels[|labels| - 1];
      var x := Continue(u, y, front).value;
      QuietRunsEnd(u, y, front, x);
      SystemStepUsesWork(u, x, last, z);
      SystemStepKeepsInput(u, x, last, z);
      ReachesFurther(u, y, labels, z);
      ReachedWorkNat(u, z);
    }
  }

  lemma ReachedWorkNat(u: Setup, y: System)
    requires Fits(u) && RunReaches(u, y)
    ensures TotalWork(u.context, y.workers) >= 0
  {
    hide RunReaches, Inv, TotalWork, LockMatches, LogMatches, FinishedMatches, FinishedInWindow, SubmissionsMatch;
    RunReachesInv(u, y);
    TotalWorkNat(u.context, y.workers);
  }

  // ---------- as long as there is some, somebody can move ----------

  /** All queues and hands are empty and all flushes delivered. */
  ghost predicate AtRest(y: System) {
    && y.lock == None
    && forall w :: 0 <= w < |y.workers| ==>
         && y.workers[w].queue == [] && y.workers[w].phase.Idle?
         && forall i :: 0 <= i < |y.workers[w].flushes| ==> y.workers[w].flushes[i].status.Done?
  }

  ghost predicate CanMove(u: Setup, y: System, l: Label)
    requires Fits(u)
  {
    Quiet(l) && NextSystem(u, y, l).Some?
  }

  /** What a worker can do when it does not have to wait for a flusher. */
  function OwnMove(s: WorkerState): Action {
    match s.phase
    case Idle => Pop
    case Popped(_) => TestFlag
    case MustFlush(_) => Process(0)
    case Processed(_, _) => Spawn
    case Spawned(_, _) => Join
    case Joined(_, _) => Publish
    case Published(_, _) => Renew
    case Renewed(_) => ClearFlag
    case MustBuffer(_) => Buffer
  }

  lemma WorkerCanMove(c: Context, s: WorkerState)
    requires c.config.WellFormed() && Inv(c, s) && (s.queue != [] || !s.phase.Idle?)
    requires forall i :: 0 <= i < |s.flushes| ==> s.flushes[i].status.Done?
    ensures OwnStep(OwnMove(s)) && QuietAction(OwnMove(s)) && Next(c, s, OwnMove(s)).Some?
  {
    hide FlushesMatch, InOrder, BookOf, Buffered, ProcessBook, BufferLine, BadLinesSeen, CopyBook, FlushersJoined,
      InterruptsCover, SegmentsNotEmpty, PublishedMatches, LastSegmentIsCurrent, SubmissionsCounted;
    if s.phase.MustFlush? {
      ProcessAlwaysPossible(c, s, 0);
    }
  }

  lemma HolderCanMove(u: Setup, y: System)
    requires Fits(u) && RunReaches(u, y) && y.lock.Some?
    ensures CanMove(u, y, Send(y.lock.value)) || CanMove(u, y, Leave(y.lock.value))
  {
    hide RunReaches;
    HolderInside(u, y, y.lock.value);
  }

  lemma WaitingCanEnter(u: Setup, y: System, id: FlushId)
    requires Fits(u) && y.lock == None && IsWaiting(y, id)
    ensures CanMove(u, y, Enter(id))
  {
  }

  /** Nobody holds the lock and nobody waits for it: the flushes are done, and any worker with work can do it. */
  lemma UnblockedCanMove(u: Setup, y: System, w: nat)
    requires Fits(u) && RunReaches(u, y) && y.lock == None && w < |y.workers|
    requires forall id :: !IsWaiting(y, id)
    requires y.workers[w].queue != [] || !y.workers[w].phase.Idle?
    ensures CanMove(u, y, Work(w, OwnMove(y.workers[w])))
  {
    hide RunReaches, Inv, LogMatches, FinishedMatches, FinishedInWindow, SubmissionsMatch, Next;
    RunReachesInv(u, y);
    AllDone(u, y, w);
    WorkerCanMove(u.context, y.workers[w]);
  }

  lemma AllDone(u: Setup, y: System, w: nat)
    requires Fits(u) && RunReaches(u, y) && y.lock == None && w < |y.workers|
    requires forall id :: !IsWaiting(y, id)
    ensures forall i :: 0 <= i < |y.workers[w].flushes| ==> y.workers[w].flushes[i].status.Done?
  {
    hide RunReaches;
    forall i | 0 <= i < |y.workers[w].flushes|
      ensures y.workers[w].flushes[i].status.Done?
    {
      assert !IsWaiting(y, FlushId(w, i));
      FreeMeansNotInside(u, y, FlushId(w, i));
    }
  }

  /** No deadlock: nothing can move without new input if and only if everything is at rest. */
  lemma StuckIffAtRest(u: Setup, y: System)
    requires Fits(u) && RunReaches(u, y)
    ensures (forall l :: !CanMove(u, y, l)) <==> AtRest(y)
  {
    if AtRest(y) {
      forall l
        ensures !CanMove(u, y, l)
      {
        RestCannotMove(u, y, l);
      }
    } else {
      var l := SomeMove(u, y);
    }
  }

  lemma RestCannotMove(u: Setup, y: System, l: Label)
    requires Fits(u) && AtRest(y)
    ensures !CanMove(u, y, l)
  {
    hide ProcessBook, BufferLine, BadLinesSeen, Buffered, CopyBook, Enqueued, WorkerFor;
  }

  lemma SomeMove(u: Setup, y: System) returns (l: Label)
    requires Fits(u) && RunReaches(u, y) && !AtRest(y)
    ensures CanMove(u, y, l)
  {
    hide RunReaches, CanMove;
    if y.lock.Some? {
      HolderCanMove(u, y);
      l :| (l == Send(y.lock.value) || l == Leave(y.lock.value)) && CanMove(u, y, l);
    } else if id :| IsWaiting(y, id) {
      WaitingCanEnter(u, y, id);
      l := Enter(id);
    } else {
      forall w | 0 <= w < |y.workers|
        ensures forall i :: 0 <= i < |y.workers[w].flushes| ==> y.workers[w].flushes[i].status.Done?
      {
        AllDone(u, y, w);
      }
      var w :| 0 <= w < |y.workers| && (y.workers[w].queue != [] || !y.workers[w].phase.Idle?);
      UnblockedCanMove(u, y, w);
      l := Work(w, OwnMove(y.workers[w]));
    }
  }

  // ---------- everything comes to rest ----------

  lemma {:induction false} RunToRest(u: Setup, y: System, labels: seq<Label>, x: System)
      returns (more: seq<Label>, z: System)
    requires Fits(u) && RunReaches(u, y) && Continue(u, y, labels) == Some(x) && AllQuiet(labels)
    ensures Continue(u, y, more) == Some(z) && AllQuiet(more) && AtRest(z)
    decreases TotalWork(u.context, x.workers)
  {
    hide NextSystem, RunReaches, TotalWork, AtRest, Quiet;
    QuietRunsEnd(u, y, labels, x);
    if AtRest(x) {
      more, z := labels, x;
    } else {
      ReachesFurther(u, y, labels, x);
      var l := SomeMove(u, x);
      var next := NextSystem(u, x, l).value;
      assert (labels + [l])[..|labels|] == labels;
      SystemStepUsesWork(u, x, l, next);
      more, z := RunToRest(u, y, labels + [l], next);
    }
  }

  /** From every state the aggregator can come to rest without any input. */
  lemma ComesToRest(u: Setup, y: System) returns (labels: seq<Label>, z: System)
    requires Fits(u) && RunReaches(u, y)
    ensures Continue(u, y, labels) == Some(z) && AllQuiet(labels) && RunReaches(u, z) && AtRest(z)
    ensures z.consumed == y.consumed && Drops(z) == Drops(y)
  {
    assert Continue(u, y, []) == Some(y);
    hide RunReaches, AtRest, Drops, Quiet;
    labels, z := RunToRest(u, y, [], y);
    QuietRunsEnd(u, y, labels, z);
    ReachesFurther(u, y, labels, z);
  }

  /**
   So unless lines have been dropped all ledgers come, in the end, to hold the counters, timers and
   sets of one ledger fed everything received so far.
   */
  lemma ComesToAgree(u: Setup, y: System) returns (labels: seq<Label>, z: System)
    requires Fits(u) && RunReaches(u, y) && forall w :: 0 <= w < |y.workers| ==> y.workers[w].dropped == 0
    ensures Continue(u, y, labels) == Some(z) && AllQuiet(labels) && Settled(z)
    ensures Core(MergeAll(BooksOfWorkers(z)))
         == Core(BookOf(u.context.config.BadLinesKey(), Image(y.consumed, Enqueued(u.context.config))))
  {
    hide RunReaches, Core, BookOf, MergeAll, BooksOfWorkers, AllQuiet;
    labels, z := ComesToRest(u, y);
    forall w | 0 <= w < |z.workers|
      ensures z.workers[w].dropped == 0
    {
      assert |Drops(z)| == |Drops(y)| && Drops(z)[w] == Drops(y)[w];
    }
    FlushesTransparent(u, z);
  }
}
