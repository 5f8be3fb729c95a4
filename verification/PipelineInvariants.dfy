/**
 Every step of the aggregator keeps its invariant, whatever the interleaving.
 */
module PipelineInvariants {
  import opened Collections
  import opened LedgerModel
  import opened LedgerMeaning
  import opened Routing
  import opened Sharding
  import opened WorkerMachine
  import opened WorkerInvariants
  import opened Pipeline

  ghost predicate SystemStep(u: Setup, y: System, l: Label, z: System)
    requires Fits(u)
  {
    NextSystem(u, y, l) == Some(z)
  }

  /** The worker a label moves, and the action it takes. */
  function MovedWorker(u: Setup, l: Label): nat
    requires u.context.config.workers >= 1
  {
    match l
    case Consume(metric) => WorkerFor(u.context.config, u.hash)(metric)
    case Work(w, _) => w
    case Enter(id) => id.worker
    case Send(id) => id.worker
    case Leave(id) => id.worker
  }

  function ActionOf(u: Setup, l: Label): Action {
    match l
    case Consume(metric) => Submit(Enqueued(u.context.config)(metric))
    case Work(_, a) => a
    case Enter(id) => Start(id.flush)
    case Send(id) => Deliver(id.flush)
    case Leave(id) => Finish(id.flush)
  }

  /** A system step is a step of one worker; the others stay as they are. */
  lemma SystemStepMoves(u: Setup, y: System, l: Label, z: System)
    requires Fits(u) && SystemStep(u, y, l, z)
    ensures var w := MovedWorker(u, l);
            && w < |y.workers| && Step(u.context, y.workers[w], ActionOf(u, l), z.workers[w])
            && z.workers == y.workers[w := z.workers[w]] && |z.workers| == |y.workers|
    ensures !l.Consume? ==> z.consumed == y.consumed
    ensures l.Consume? ==> z.consumed == y.consumed + [l.metric]
    ensures l.Consume? || l.Work? ==> z.lock == y.lock && z.log == y.log && z.finished == y.finished
    ensures l.Enter? ==> y.lock == None && z.lock == Some(l.id) && z.log == y.log && z.finished == y.finished
    ensures l.Send? ==> z.lock == y.lock && z.finished == y.finished
                        && z.log == y.log + [Delivery(l.id.worker, l.id.flush, DeliveredSoFar(y, l.id),
                                                      LedgerOf(y, l.id))]
    ensures l.Leave? ==> z.lock == None && z.log == y.log && z.finished == y.finished + [l.id]
    ensures l.Work? ==> OwnStep(l.action)
  {
    hide Next;
  }

  lemma KeepsWorkersFine(u: Setup, y: System, l: Label, z: System)
    requires Fits(u) && SystemStep(u, y, l, z) && WorkersFine(u, y)
    ensures WorkersFine(u, z)
  {
    hide SystemStep, Step, Inv;
    SystemStepMoves(u, y, l, z);
    var w := MovedWorker(u, l);
    StepKeepsInv(u.context, y.workers[w], ActionOf(u, l), z.workers[w]);
  }

  /** How an action changes the status of flush `i`. */
  lemma StatusOfStep(c: Context, s: WorkerState, a: Action, t: WorkerState, i: nat)
    requires Step(c, s, a, t) && i < |t.flushes|
    ensures i >= |s.flushes| ==> a.Spawn? && i == |s.flushes| && t.flushes[i].status.Waiting?
    ensures i < |s.flushes| ==>
              var before, after := s.flushes[i].status, t.flushes[i].status;
              && (a == Start(i) ==> before.Waiting? && after == Inside(0))
              && (a == Deliver(i) ==>
                    before.Inside? && before.delivered < c.backends && after == Inside(before.delivered + 1))
              && (a == Finish(i) ==> before == Inside(c.backends) && after.Done?)
              && (a != Start(i) && a != Deliver(i) && a != Finish(i) ==> after == before)
  {
    hide ProcessBook, BufferLine, BadLinesSeen, Buffered, CopyBook;
  }

  lemma FlushesOfStep(c: Context, s: WorkerState, a: Action, t: WorkerState)
    requires Step(c, s, a, t)
    ensures |t.flushes| == |s.flushes| + if a.Spawn? then 1 else 0
    ensures (a.Start? || a.Deliver? || a.Finish?) ==> a.flush < |s.flushes|
  {
    hide ProcessBook, BufferLine, BadLinesSeen, Buffered, CopyBook;
  }

  /** Who is inside the loop after a step. */
  lemma InsideAfterStep(u: Setup, y: System, l: Label, z: System, id: FlushId)
    requires Fits(u) && SystemStep(u, y, l, z)
    ensures IsInside(z, id) <==> (IsInside(y, id) && l != Leave(id)) || l == Enter(id)
    ensures l == Leave(id) || l == Send(id) ==> IsInside(y, id)
    ensures l == Enter(id) ==> DeliveredSoFar(z, id) == 0
    ensures l == Send(id) ==> DeliveredSoFar(z, id) == DeliveredSoFar(y, id) + 1
    ensures l == Leave(id) ==> DeliveredSoFar(y, id) == u.context.backends
    ensures l != Enter(id) && l != Send(id) && l != Leave(id) ==> DeliveredSoFar(z, id) == DeliveredSoFar(y, id)
    ensures IsDone(z, id) <==> IsDone(y, id) || l == Leave(id)
    ensures l == Leave(id) ==> !IsDone(y, id)
  {
    hide SystemStep, Step;
    SystemStepMoves(u, y, l, z);
    var w := MovedWorker(u, l);
    FlushesOfStep(u.context, y.workers[w], ActionOf(u, l), z.workers[w]);
    if id.worker == w && id.flush < |z.workers[w].flushes| {
      StatusOfStep(u.context, y.workers[w], ActionOf(u, l), z.workers[w], id.flush);
    }
  }

  lemma KeepsLockMatches(u: Setup, y: System, l: Label, z: System)
    requires Fits(u) && SystemStep(u, y, l, z) && LockMatches(y)
    ensures LockMatches(z)
  {
    hide SystemStep, IsInside;
    SystemStepMoves(u, y, l, z);
    if l.Leave? {
      InsideAfterStep(u, y, l, z, l.id);
    }
    forall id
      ensures IsInside(z, id) <==> z.lock == Some(id)
    {
      InsideAfterStep(u, y, l, z, id);
    }
  }

  lemma BlockGrows(id: FlushId, ledger: Book, n: nat)
    ensures Block(id, ledger, n + 1) == Block(id, ledger, n) + [Delivery(id.worker, id.flush, n, ledger)]
    ensures Block(id, ledger, 0) == []
  {
  }

  /** A flush keeps the ledger it was started with. */
  lemma LedgerKept(u: Setup, y: System, l: Label, z: System, id: FlushId)
    requires Fits(u) && SystemStep(u, y, l, z) && (IsInside(y, id) || IsDone(y, id))
    ensures LedgerOf(z, id) == LedgerOf(y, id)
  {
    hide SystemStep, Step;
    SystemStepMoves(u, y, l, z);
    var w := MovedWorker(u, l);
    FrameOfStep(u.context, y.workers[w], ActionOf(u, l), z.workers[w]);
  }

  lemma BlocksKept(u: Setup, y: System, l: Label, z: System)
    requires Fits(u) && SystemStep(u, y, l, z) && FinishedMatches(y)
    ensures Image(y.finished, WholeBlock(z, u.context.backends)) == Image(y.finished, WholeBlock(y, u.context.backends))
  {
    hide SystemStep, LedgerOf, IsInside, IsDone;
    forall i | 0 <= i < |y.finished|
      ensures LedgerOf(z, y.finished[i]) == LedgerOf(y, y.finished[i])
    {
      assert y.finished[i] in y.finished;
      LedgerKept(u, y, l, z, y.finished[i]);
    }
  }

  lemma KeepsLogMatches(u: Setup, y: System, l: Label, z: System)
    requires Fits(u) && SystemStep(u, y, l, z) && LockMatches(y) && FinishedMatches(y) && LogMatches(u, y)
    ensures LogMatches(u, z)
  {
    hide SystemStep, IsInside, IsDone, DeliveredSoFar, Flatten, Image, Block, LedgerOf, FinishedMatches;
    SystemStepMoves(u, y, l, z);
    BlocksKept(u, y, l, z);
    var done := Flatten(Image(y.finished, WholeBlock(y, u.context.backends)));
    match l {
      case Enter(id) =>
        InsideAfterStep(u, y, l, z, id);
        BlockGrows(id, LedgerOf(z, id), 0);
      case Send(id) =>
        InsideAfterStep(u, y, l, z, id);
        LedgerKept(u, y, l, z, id);
        BlockGrows(id, LedgerOf(y, id), DeliveredSoFar(y, id));
        var delivery := Delivery(id.worker, id.flush, DeliveredSoFar(y, id), LedgerOf(y, id));
        assert done + OpenBlock(y) + [delivery] == done + (OpenBlock(y) + [delivery]);
      case Leave(id) =>
        InsideAfterStep(u, y, l, z, id);
        LedgerKept(u, y, l, z, id);
        ImageSnoc(y.finished, id, WholeBlock(z, u.context.backends));
        FlattenSnoc(Image(y.finished, WholeBlock(z, u.context.backends)), WholeBlock(z, u.context.backends)(id));
      case _ =>
        if y.lock.Some? {
          InsideAfterStep(u, y, l, z, y.lock.value);
          LedgerKept(u, y, l, z, y.lock.value);
        }
    }
  }

  lemma KeepsFinishedMatches(u: Setup, y: System, l: Label, z: System)
    requires Fits(u) && SystemStep(u, y, l, z) && FinishedMatches(y)
    ensures FinishedMatches(z)
  {
    hide SystemStep, IsInside, IsDone, DeliveredSoFar;
    SystemStepMoves(u, y, l, z);
    if l.Leave? {
      InsideAfterStep(u, y, l, z, l.id);
      assert forall p :: 0 <= p < |y.finished| ==> y.finished[p] in y.finished;
    }
    forall id
      ensures id in z.finished <==> IsDone(z, id)
    {
      InsideAfterStep(u, y, l, z, id);
    }
  }

  /** A flush that is not done is among the last two of its worker. */
  lemma UndoneIsRecent(c: Context, s: WorkerState, i: nat)
    requires FlushersJoined(c, s) && i < |s.flushes| && !s.flushes[i].status.Done?
    ensures |s.flushes| <= i + 2
  {
  }

  lemma LeavingIsRecent(u: Setup, y: System, l: Label, z: System)
    requires Fits(u) && SystemStep(u, y, l, z) && WorkersFine(u, y) && l.Leave?
    ensures l.id.worker < |y.workers| && |y.workers[l.id.worker].flushes| <= l.id.flush + 2
  {
    hide SystemStep, FlushesMatch, LedgerMatches, InOrder, SubmissionsCounted, FlushersJoined,
      InterruptsCover, SegmentsNotEmpty, PublishedMatches, LastSegmentIsCurrent;
    SystemStepMoves(u, y, l, z);
    InsideAfterStep(u, y, l, z, l.id);
    UndoneIsRecent(u.context, y.workers[l.id.worker], l.id.flush);
  }

  lemma KeepsFinishedInWindow(u: Setup, y: System, l: Label, z: System)
    requires Fits(u) && SystemStep(u, y, l, z)
    requires WorkersFine(u, y) && FinishedMatches(y) && FinishedInWindow(y)
    ensures FinishedInWindow(z)
  {
    hide SystemStep, Inv, DeliveredSoFar;
    SystemStepMoves(u, y, l, z);
    if l.Leave? {
      LeavingIsRecent(u, y, l, z);
      forall p | 0 <= p < |y.finished| && y.finished[p].worker == l.id.worker
        ensures y.finished[p].flush <= l.id.flush + 1
      {
        assert IsDone(y, y.finished[p]);
      }
    }
  }

  lemma KeepsSubmissionsMatch(u: Setup, y: System, l: Label, z: System)
    requires Fits(u) && SystemStep(u, y, l, z) && SubmissionsMatch(u, y)
    ensures SubmissionsMatch(u, z)
  {
    hide SystemStep, Share, WorkerFor, Enqueued;
    SystemStepMoves(u, y, l, z);
    var w := MovedWorker(u, l);
    SubmittedByStep(u.context, y.workers[w], ActionOf(u, l), z.workers[w]);
    if l.Consume? {
      forall v | 0 <= v < |z.workers|
        ensures z.workers[v].history.submitted
             == Share(z.consumed, RoutedTo(WorkerFor(u.context.config, u.hash), v), Enqueued(u.context.config))
      {
        ShareSnoc(y.consumed, l.metric, RoutedTo(WorkerFor(u.context.config, u.hash), v), Enqueued(u.context.config));
      }
    }
  }

  lemma SubmittedByStep(c: Context, s: WorkerState, a: Action, t: WorkerState)
    requires Step(c, s, a, t)
    ensures t.history.submitted == if a.Submit? then s.history.submitted + [a.text] else s.history.submitted
  {
    hide ProcessBook, BufferLine, BadLinesSeen, Buffered, CopyBook;
  }

  lemma ShareSnoc(arrivals: seq<string>, x: string, picked: string -> bool, render: string -> string)
    ensures Share(arrivals + [x], picked, render)
         == if picked(x) then Share(arrivals, picked, render) + [render(x)] else Share(arrivals, picked, render)
  {
    FilterSnoc(arrivals, x, picked);
    ImageSnoc(Filter(arrivals, picked), x, render);
  }

  lemma SystemStepKeepsInv(u: Setup, y: System, l: Label, z: System)
    requires Fits(u) && SystemStep(u, y, l, z) && SystemInv(u, y)
    ensures SystemInv(u, z)
  {
    hide SystemStep, WorkersFine, LockMatches, LogMatches, FinishedMatches, FinishedInWindow, SubmissionsMatch;
    KeepsWorkersFine(u, y, l, z);
    KeepsLockMatches(u, y, l, z);
    KeepsLogMatches(u, y, l, z);
    KeepsFinishedMatches(u, y, l, z);
    KeepsFinishedInWindow(u, y, l, z);
    KeepsSubmissionsMatch(u, y, l, z);
  }

  lemma InitialSystemInv(u: Setup)
    requires Fits(u)
    ensures SystemInv(u, InitialSystem(u))
  {
    hide Inv, WorkerFor, Enqueued;
    InitialInv(u.context);
    assert Image<FlushId, seq<Delivery>>([], WholeBlock(InitialSystem(u), u.context.backends)) == [];
  }

  /** The invariant holds at every point of every run. */
  lemma {:induction false} RunKeepsInv(u: Setup, systems: seq<System>, labels: seq<Label>, i: nat)
    requires Fits(u) && IsRun(u, systems, labels) && i < |systems|
    ensures SystemInv(u, systems[i])
    decreases i
  {
    hide NextSystem, SystemInv, InitialSystem;
    if i == 0 {
      InitialSystemInv(u);
    } else {
      RunKeepsInv(u, systems, labels, i - 1);
      SystemStepKeepsInv(u, systems[i - 1], labels[i - 1], systems[i]);
    }
  }
}
