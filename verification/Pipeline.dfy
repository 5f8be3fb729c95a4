/**
 The whole aggregator: consumers, any number of workers with their flushers, the clock, and the
 lock in front of the backends, all interleaved step by step.
 */
module Pipeline {
  import opened Collections
  import opened LedgerModel
  import opened Routing
  import opened Sharding
  import opened WorkerMachine

  datatype Setup = Setup(context: Context, hash: StringHash)

  /** One backend has been given a ledger, by one flush of one worker. */
  datatype Delivery = Delivery(worker: nat, flush: nat, backend: nat, ledger: Book)

  datatype FlushId = FlushId(worker: nat, flush: nat)

  /** `log`, `finished` and `consumed` record what has happened. */
  datatype System = System(
    workers: seq<WorkerState>,
    lock: Option<FlushId>,
    log: seq<Delivery>,
    finished: seq<FlushId>,
    consumed: seq<string>)

  /** `Work` is any step that needs neither a received line nor the backends' lock. */
  datatype Label =
    | Consume(metric: string)
    | Work(worker: nat, action: Action)
    | Enter(id: FlushId)
    | Send(id: FlushId)
    | Leave(id: FlushId)

  ghost predicate Fits(u: Setup) {
    u.context.config.WellFormed()
  }

  function InitialSystem(u: Setup): System
    requires u.context.config.workers >= 1
  {
    System(seq(u.context.config.workers, _ => Initial()), None, [], [], [])
  }

  predicate OwnStep(a: Action) {
    !a.Submit? && !a.Start? && !a.Deliver? && !a.Finish?
  }

  /** One worker takes a step, if it can. */
  ghost function MoveWorker(u: Setup, y: System, w: nat, a: Action): Option<System> {
    if w >= |y.workers| then None
    else
      match Next(u.context, y.workers[w], a)
      case None => None
      case Some(t) => Some(y.(workers := y.workers[w := t]))
  }

  function DeliveredSoFar(y: System, id: FlushId): nat {
    if id.worker < |y.workers| && id.flush < |y.workers[id.worker].flushes|
       && y.workers[id.worker].flushes[id.flush].status.Inside?
    then y.workers[id.worker].flushes[id.flush].status.delivered
    else 0
  }

  function LedgerOf(y: System, id: FlushId): Book {
    if id.worker < |y.workers| && id.flush < |y.workers[id.worker].flushes|
    then y.workers[id.worker].flushes[id.flush].ledger
    else EMPTY_BOOK
  }

  /** A flusher enters the backend loop only with the lock, and gives it back at the end. */
  ghost function NextSystem(u: Setup, y: System, l: Label): Option<System>
    requires Fits(u)
  {
    match l
    case Consume(metric) =>
      MoveWorker(u, y.(consumed := y.consumed + [metric]), WorkerFor(u.context.config, u.hash)(metric),
                 Submit(Enqueued(u.context.config)(metric)))
    case Work(w, a) => if OwnStep(a) then MoveWorker(u, y, w, a) else None
    case Enter(id) => if y.lock.None? then MoveWorker(u, y.(lock := Some(id)), id.worker, Start(id.flush)) else None
    case Send(id) =>
      var delivery := Delivery(id.worker, id.flush, DeliveredSoFar(y, id), LedgerOf(y, id));
      MoveWorker(u, y.(log := y.log + [delivery]), id.worker, Deliver(id.flush))
    case Leave(id) =>
      MoveWorker(u, y.(lock := None, finished := y.finished + [id]), id.worker, Finish(id.flush))
  }

  /** A run: each system follows from the one before by the label between them. */
  ghost predicate IsRun(u: Setup, systems: seq<System>, labels: seq<Label>)
    requires Fits(u)
  {
    && |systems| == |labels| + 1
    && systems[0] == InitialSystem(u)
    && forall i :: 0 <= i < |labels| ==> NextSystem(u, systems[i], labels[i]) == Some(systems[i + 1])
  }

  // ---------- what every step keeps ----------

  ghost predicate WorkersFine(u: Setup, y: System)
    requires Fits(u)
  {
    && |y.workers| == u.context.config.workers
    && forall w :: 0 <= w < |y.workers| ==> Inv(u.context, y.workers[w])
  }

  ghost predicate IsInside(y: System, id: FlushId) {
    id.worker < |y.workers| && id.flush < |y.workers[id.worker].flushes|
    && y.workers[id.worker].flushes[id.flush].status.Inside?
  }

  ghost predicate IsDone(y: System, id: FlushId) {
    id.worker < |y.workers| && id.flush < |y.workers[id.worker].flushes|
    && y.workers[id.worker].flushes[id.flush].status.Done?
  }

  /** Whoever is inside the backend loop holds the lock, and nobody else. */
  ghost predicate LockMatches(y: System) {
    forall id :: IsInside(y, id) <==> y.lock == Some(id)
  }

  /** The deliveries of one flush: its ledger, to one backend after the other. */
  function Block(id: FlushId, ledger: Book, n: nat): seq<Delivery> {
    seq(n, k requires 0 <= k < n => Delivery(id.worker, id.flush, k, ledger))
  }

  function WholeBlock(y: System, backends: nat): FlushId -> seq<Delivery> {
    id => Block(id, LedgerOf(y, id), backends)
  }

  function OpenBlock(y: System): seq<Delivery> {
    match y.lock
    case None => []
    case Some(id) => Block(id, LedgerOf(y, id), DeliveredSoFar(y, id))
  }

  /** Deliveries come in whole blocks, one per finished flush, and the block of the lock's holder. */
  ghost predicate LogMatches(u: Setup, y: System) {
    y.log == Flatten(Image(y.finished, WholeBlock(y, u.context.backends))) + OpenBlock(y)
  }

  ghost predicate FinishedMatches(y: System) {
    && (forall id :: id in y.finished <==> IsDone(y, id))
    && (forall p, q :: 0 <= p < q < |y.finished| ==> y.finished[p] != y.finished[q])
  }

  /** A flush of a worker finishes after every flush of that worker two or more before it. */
  ghost predicate FinishedInWindow(y: System) {
    forall p, q :: 0 <= p < q < |y.finished| && y.finished[p].worker == y.finished[q].worker ==>
      y.finished[p].flush <= y.finished[q].flush + 1
  }

  ghost predicate SubmissionsMatch(u: Setup, y: System)
    requires Fits(u)
  {
    forall w :: 0 <= w < |y.workers| ==>
      y.workers[w].history.submitted
      == Share(y.consumed, RoutedTo(WorkerFor(u.context.config, u.hash), w), Enqueued(u.context.config))
  }

  ghost predicate SystemInv(u: Setup, y: System)
    requires Fits(u)
  {
    && WorkersFine(u, y) && LockMatches(y) && LogMatches(u, y) && FinishedMatches(y) && FinishedInWindow(y)
    && SubmissionsMatch(u, y)
  }
}
