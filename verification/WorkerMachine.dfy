/**
 One aggregator worker as a state machine. Its thread, the threads that submit lines, the clock and
 the flusher threads it starts each take one step at a time, in any order.
 */
module WorkerMachine {
  import opened Arithmetic
  import opened Collections
  import opened Config
  import opened LedgerModel
  import opened LedgerMeaning

  const QUEUE_CAPACITY: nat := 10000

  /** What the machine is set up with: the configuration, and how many backends there are. */
  datatype Context = Context(config: AggregatorConfig, backends: nat)

  /**
   Where the worker's loop stands. From `Popped` on it holds the line it took from the queue; the
   phases from `MustFlush` to `Renewed` make up the flush section.
   */
  datatype Phase =
    | Idle
    | Popped(line: string)
    | MustFlush(line: string)
    | Processed(line: string, elapsed: int)
    | Spawned(line: string, elapsed: int)
    | Joined(line: string, elapsed: int)
    | Published(line: string, elapsed: int)
    | Renewed(line: string)
    | MustBuffer(line: string)

  /** A flusher waits for the lock of the backends, delivers to one after the other, and ends. */
  datatype FlushStatus = Waiting | Inside(delivered: nat) | Done

  datatype Flush = Flush(ledger: Book, elapsed: int, status: FlushStatus)

  /** What has happened so far; nothing the worker does depends on it. */
  datatype History = History(
    submitted: seq<string>,
    accepted: seq<string>,
    segments: seq<seq<string>>,
    current: seq<string>,
    interrupts: nat,
    outsideInterrupts: nat)

  datatype WorkerState = WorkerState(
    queue: seq<string>,
    dropped: nat,
    flag: bool,
    phase: Phase,
    ledger: Book,
    count: nat,
    flushes: seq<Flush>,
    joined: nat,
    badLinesSeen: int,
    frequency: map<string, int>,
    metricsRate: int,
    history: History)

  datatype Action =
    | Submit(text: string)
    | Interrupt
    | Pop
    | TestFlag
    | Process(took: int)
    | Spawn
    | Join
    | Publish
    | Renew
    | ClearFlag
    | Buffer
    | Start(flush: nat)
    | Deliver(flush: nat)
    | Finish(flush: nat)

  function Initial(): WorkerState {
    WorkerState([], 0, false, Idle, EMPTY_BOOK, 0, [], 0, 0, map[], 0, History([], [], [], [], 0, 0))
  }

  predicate InFlushSection(p: Phase) {
    p.MustFlush? || p.Processed? || p.Spawned? || p.Joined? || p.Published? || p.Renewed?
  }

  function SetStatus(s: WorkerState, i: nat, status: FlushStatus): WorkerState
    requires i < |s.flushes|
  {
    s.(flushes := s.flushes[i := s.flushes[i].(status := status)])
  }

  /** A new line goes to the end of the queue, or is dropped if the queue is full. */
  function NextSubmit(s: WorkerState, line: string): WorkerState {
    var h := s.history.(submitted := s.history.submitted + [line]);
    if |s.queue| < QUEUE_CAPACITY
    then s.(queue := s.queue + [line], history := h.(accepted := h.accepted + [line]))
    else s.(dropped := s.dropped + 1, history := h)
  }

  function NextInterrupt(s: WorkerState): WorkerState {
    var outside := if InFlushSection(s.phase) then 0 else 1;
    s.(flag := true,
       history := s.history.(interrupts := s.history.interrupts + 1,
                             outsideInterrupts := s.history.outsideInterrupts + outside))
  }

  /** The new flusher gets a copy of the processed ledger before the old one is waited for. */
  function NextSpawn(s: WorkerState): WorkerState
    requires s.phase.Processed?
  {
    s.(phase := Spawned(s.phase.line, s.phase.elapsed),
       flushes := s.flushes + [Flush(CopyBook(s.ledger), s.phase.elapsed, Waiting)],
       history := s.history.(segments := s.history.segments + [s.history.current]))
  }

  /** Assigning the guard joins the flusher it held; that one has to be done. */
  predicate CanJoin(s: WorkerState) {
    s.phase.Spawned? && (|s.flushes| >= 2 ==> s.flushes[|s.flushes| - 2].status.Done?)
  }

  /** The step `a`, or `None` if it cannot be taken now. */
  ghost function Next(c: Context, s: WorkerState, a: Action): Option<WorkerState> {
    match a
    case Submit(line) => Some(NextSubmit(s, line))
    case Interrupt => Some(NextInterrupt(s))
    case Pop =>
      if s.phase.Idle? && s.queue != [] then Some(s.(phase := Popped(s.queue[0]), queue := s.queue[1..])) else None
    case TestFlag =>
      if !s.phase.Popped? then None
      else Some(s.(phase := if s.flag then MustFlush(s.phase.line) else MustBuffer(s.phase.line)))
    case Process(took) =>
      if s.phase.MustFlush? && Buffered(s.ledger) && c.config.WellFormed()
      then Some(s.(phase := Processed(s.phase.line, took), ledger := ProcessBook(s.ledger, c.config, took)))
      else None
    case Spawn => if s.phase.Processed? then Some(NextSpawn(s)) else None
    case Join =>
      if CanJoin(s)
      then Some(s.(phase := Joined(s.phase.line, s.phase.elapsed), joined := AtLeastZero(|s.flushes| - 1)))
      else None
    case Publish =>
      if !s.phase.Joined? then None
      else Some(s.(phase := Published(s.phase.line, s.phase.elapsed),
                   badLinesSeen := BadLinesSeen(s.ledger, c.config.BadLinesKey()),
                   frequency := s.ledger.frequency))
    case Renew =>
      if s.phase.Published? && c.config.frequency >= 1
      then Some(s.(phase := Renewed(s.phase.line), ledger := EMPTY_BOOK,
                   metricsRate := s.count / c.config.frequency, count := 0,
                   history := s.history.(current := [])))
      else None
    case ClearFlag =>
      if s.phase.Renewed? then Some(s.(phase := MustBuffer(s.phase.line), flag := false)) else None
    case Buffer =>
      if !s.phase.MustBuffer? then None
      else Some(s.(phase := Idle, count := s.count + 1,
                   ledger := BufferLine(s.ledger, c.config.BadLinesKey(), s.phase.line),
                   history := s.history.(current := s.history.current + [s.phase.line])))
    case Start(i) =>
      if i < |s.flushes| && s.flushes[i].status.Waiting? then Some(SetStatus(s, i, Inside(0))) else None
    case Deliver(i) =>
      if i < |s.flushes| && s.flushes[i].status.Inside? && s.flushes[i].status.delivered < c.backends
      then Some(SetStatus(s, i, Inside(s.flushes[i].status.delivered + 1)))
      else None
    case Finish(i) =>
      if i < |s.flushes| && s.flushes[i].status == Inside(c.backends) then Some(SetStatus(s, i, Done)) else None
  }

  /** The state after a sequence of actions, if each could be taken in its turn. */
  ghost function Exec(c: Context, s: WorkerState, actions: seq<Action>): Option<WorkerState> {
    if actions == [] then Some(s)
    else
      match Exec(c, s, actions[..|actions| - 1])
      case None => None
      case Some(t) => Next(c, t, actions[|actions| - 1])
  }

  // ---------- what every step keeps ----------

  function InHand(p: Phase): seq<string> {
    if p.Idle? then [] else [p.line]
  }

  /** The lines in the current ledger, once the flusher has its copy no longer counted here. */
  function Unflushed(s: WorkerState): seq<string> {
    if s.phase.Spawned? || s.phase.Joined? || s.phase.Published? then [] else s.history.current
  }

  ghost function Snapshot(c: Context, segment: seq<string>, elapsed: int): Book
    requires c.config.WellFormed() && Buffered(BookOf(c.config.BadLinesKey(), segment))
  {
    CopyBook(ProcessBook(BookOf(c.config.BadLinesKey(), segment), c.config, elapsed))
  }

  /** Each flusher was given the processed ledger of its own segment of the lines. */
  ghost predicate FlushesMatch(c: Context, s: WorkerState)
    requires c.config.WellFormed()
  {
    && |s.history.segments| == |s.flushes|
    && forall i :: 0 <= i < |s.flushes| ==>
         && Buffered(BookOf(c.config.BadLinesKey(), s.history.segments[i]))
         && s.flushes[i].ledger == Snapshot(c, s.history.segments[i], s.flushes[i].elapsed)
  }

  /** The current ledger is what its own lines make it, processed or not. */
  ghost predicate LedgerMatches(c: Context, s: WorkerState)
    requires c.config.WellFormed()
  {
    var own := BookOf(c.config.BadLinesKey(), s.history.current);
    && Buffered(own)
    && s.count == |s.history.current|
    && match s.phase
       case Processed(_, e) => s.ledger == ProcessBook(own, c.config, e)
       case Spawned(_, e) => s.ledger == ProcessBook(own, c.config, e)
       case Joined(_, e) => s.ledger == ProcessBook(own, c.config, e)
       case Published(_, e) => s.ledger == ProcessBook(own, c.config, e)
       case Renewed(_) => s.ledger == own && s.history.current == []
       case _ => s.ledger == own
  }

  /** After the spawn and until the ledger is replaced, the last segment is the current one. */
  ghost predicate LastSegmentIsCurrent(s: WorkerState) {
    s.phase.Spawned? || s.phase.Joined? || s.phase.Published? ==>
      s.history.segments != [] && s.history.segments[|s.history.segments| - 1] == s.history.current
  }

  /** First in, first out: flushed segments, current ledger, line in hand, queue. */
  ghost predicate InOrder(s: WorkerState) {
    s.history.accepted == Flatten(s.history.segments) + Unflushed(s) + InHand(s.phase) + s.queue
  }

  ghost predicate SubmissionsCounted(s: WorkerState) {
    && |s.queue| <= QUEUE_CAPACITY
    && |s.history.submitted| == |s.history.accepted| + s.dropped
    && (s.dropped == 0 ==> s.history.accepted == s.history.submitted)
  }

  /** Every flusher but the newest has been joined; right after a spawn the one before it may not. */
  ghost predicate FlushersJoined(c: Context, s: WorkerState) {
    && s.joined <= |s.flushes|
    && s.joined >= |s.flushes| - (if s.phase.Spawned? then 2 else 1)
    && (forall i :: 0 <= i < s.joined ==> s.flushes[i].status.Done?)
    && (forall i :: 0 <= i < |s.flushes| && s.flushes[i].status.Inside? ==> s.flushes[i].status.delivered <= c.backends)
  }

  predicate AfterSpawn(p: Phase) {
    p.Spawned? || p.Joined? || p.Published? || p.Renewed?
  }

  /** A flush uses up an interrupt that came outside the flush section. */
  ghost predicate InterruptsCover(s: WorkerState) {
    && s.history.outsideInterrupts <= s.history.interrupts
    && |s.flushes| <= s.history.outsideInterrupts
    && (s.flag && !AfterSpawn(s.phase) ==> |s.flushes| + 1 <= s.history.outsideInterrupts)
    && (InFlushSection(s.phase) ==> s.flag)
  }

  /** Between two flushes at least one line is buffered. */
  ghost predicate SegmentsNotEmpty(s: WorkerState) {
    && |s.history.segments| == |s.flushes|
    && (forall i :: 1 <= i < |s.history.segments| ==> s.history.segments[i] != [])
    && (s.flushes != [] && (s.phase.Idle? || s.phase.Popped? || s.phase.MustFlush? || s.phase.Processed?) ==>
          s.history.current != [])
  }

  /** What the status pages read is the last flushed ledger's. */
  ghost predicate PublishedMatches(c: Context, s: WorkerState) {
    && |s.history.segments| == |s.flushes|
    && (s.flushes != [] && !s.phase.Spawned? && !s.phase.Joined? ==>
          var last := BookOf(c.config.BadLinesKey(), s.history.segments[|s.flushes| - 1]);
          s.frequency == last.frequency && s.badLinesSeen == BadLinesSeen(last, c.config.BadLinesKey()))
  }

  ghost predicate Inv(c: Context, s: WorkerState)
    requires c.config.WellFormed()
  {
    && FlushesMatch(c, s) && LedgerMatches(c, s) && LastSegmentIsCurrent(s) && InOrder(s)
    && SubmissionsCounted(s) && FlushersJoined(c, s) && InterruptsCover(s)
    && SegmentsNotEmpty(s) && PublishedMatches(c, s)
  }
}
