/**
 What holds of a worker in every state it can reach, and over stretches of its runs.
 */
module WorkerTheorems {
  import opened Amounts
  import opened Collections
  import opened Config
  import opened LedgerModel
  import opened LedgerMeaning
  import LedgerOrder
  import opened WorkerMachine
  import opened WorkerInvariants

  ghost predicate Reachable(c: Context, s: WorkerState) {
    exists actions :: Exec(c, Initial(), actions) == Some(s)
  }

  lemma ReachableInv(c: Context, s: WorkerState)
    requires c.config.WellFormed() && Reachable(c, s)
    ensures Inv(c, s)
  {
    hide Inv;
    var actions :| Exec(c, Initial(), actions) == Some(s);
    InitialInv(c);
    ExecKeepsInv(c, Initial(), actions);
  }

  // ---------- conservation of lines ----------

  function LinesIn(b: Book): int {
    Get(b.statsdMetrics, METRICS_PROCESSED, 0)
  }

  ghost function LinesFlushed(flushes: seq<Flush>): int {
    if flushes == [] then 0 else LinesFlushed(flushes[..|flushes| - 1]) + LinesIn(flushes[|flushes| - 1].ledger)
  }

  /** The lines of the current ledger that no flusher has been given. */
  function LinesInLedger(s: WorkerState): int {
    if s.phase.Spawned? || s.phase.Joined? || s.phase.Published? then 0 else LinesIn(s.ledger)
  }

  lemma SnapshotLines(c: Context, segment: seq<string>, elapsed: int)
    requires c.config.WellFormed()
    ensures Buffered(BookOf(c.config.BadLinesKey(), segment))
    ensures LinesIn(Snapshot(c, segment, elapsed)) == |segment|
  {
    hide BookOf, ProcessBook, CopyBook;
    LedgerOrder.SnapshotComplete(c.config, segment, elapsed);
  }

  lemma {:induction false} FlushedLinesAreSegments(c: Context, segments: seq<seq<string>>, flushes: seq<Flush>)
    requires c.config.WellFormed() && |segments| == |flushes|
    requires forall i :: 0 <= i < |flushes| ==>
               && Buffered(BookOf(c.config.BadLinesKey(), segments[i]))
               && flushes[i].ledger == Snapshot(c, segments[i], flushes[i].elapsed)
    ensures LinesFlushed(flushes) == |Flatten(segments)|
  {
    hide BookOf, Snapshot, Buffered, LinesIn;
    if flushes != [] {
      var n := |flushes| - 1;
      FlushedLinesAreSegments(c, segments[..n], flushes[..n]);
      SnapshotLines(c, segments[n], flushes[n].elapsed);
    }
  }

  lemma LedgerLines(c: Context, s: WorkerState)
    requires c.config.WellFormed() && LedgerMatches(c, s)
    ensures LinesInLedger(s) == |Unflushed(s)|
  {
    hide BookOf, Buffered, ProcessBook;
    LinesAccountedFor(c.config.BadLinesKey(), s.history.current);
    if s.phase.Processed? {
      ProcessKeepsLines(BookOf(c.config.BadLinesKey(), s.history.current), c.config, s.phase.elapsed);
    }
  }

  lemma ProcessKeepsLines(b: Book, config: AggregatorConfig, elapsed: int)
    requires config.WellFormed() && Buffered(b)
    ensures LinesIn(ProcessBook(b, config, elapsed)) == LinesIn(b)
  {
    assert PROCESSING_TIME[0] != METRICS_PROCESSED[0];
  }

  /** Every submitted line was dropped, or is queued, in hand, in the current or in a flushed ledger. */
  lemma LinesConserved(c: Context, s: WorkerState)
    requires c.config.WellFormed() && Reachable(c, s)
    ensures |s.history.submitted|
         == s.dropped + |s.queue| + |InHand(s.phase)| + LinesInLedger(s) + LinesFlushed(s.flushes)
  {
    hide BookOf, Buffered, ProcessBook, Snapshot, LedgerMatches, Flatten, LinesFlushed, LinesInLedger,
      FlushersJoined, InterruptsCover, SegmentsNotEmpty, PublishedMatches, LastSegmentIsCurrent;
    ReachableInv(c, s);
    FlushedLinesAreSegments(c, s.history.segments, s.flushes);
    LedgerLines(c, s);
  }

  // ---------- the window of flushers ----------

  ghost function LiveFlushers(s: WorkerState): set<int> {
    set i | 0 <= i < |s.flushes| && !s.flushes[i].status.Done?
  }

  lemma SmallRange(live: set<int>, low: int, n: nat)
    requires forall i :: i in live ==> low <= i < low + n
    ensures |live| <= n
    decreases n
  {
    if n > 0 {
      SmallRange(live - {low + n - 1}, low, n - 1);
    } else {
      assert forall i :: i !in live;
      assert live == {};
    }
  }

  /**
   At most two flushers of a worker are alive, and at most one outside the moment between starting
   the new one and joining the old.
   */
  lemma FlusherWindow(c: Context, s: WorkerState)
    requires c.config.WellFormed() && Reachable(c, s)
    ensures |LiveFlushers(s)| <= 2
    ensures !s.phase.Spawned? ==> |LiveFlushers(s)| <= 1
    ensures s.phase.MustBuffer? ==> |LiveFlushers(s)| <= 1
    ensures forall i :: 0 <= i && i + 2 < |s.flushes| ==> s.flushes[i].status.Done?
    ensures forall i :: 0 <= i && i + 1 < |s.flushes| && !s.phase.Spawned? ==> s.flushes[i].status.Done?
  {
    hide FlushesMatch, LedgerMatches, InOrder, InterruptsCover, SegmentsNotEmpty, PublishedMatches,
      LastSegmentIsCurrent, SubmissionsCounted;
    ReachableInv(c, s);
    SmallRange(LiveFlushers(s), s.joined, |s.flushes| - s.joined);
  }

  // ---------- interrupts ----------

  /** Flushes never outnumber interrupts, not even those that came outside the flush section. */
  lemma FlushesNeedInterrupts(c: Context, s: WorkerState)
    requires c.config.WellFormed() && Reachable(c, s)
    ensures |s.flushes| <= s.history.outsideInterrupts <= s.history.interrupts
  {
    hide FlushesMatch, LedgerMatches, InOrder, FlushersJoined, SegmentsNotEmpty, PublishedMatches,
      LastSegmentIsCurrent, SubmissionsCounted;
    ReachableInv(c, s);
  }

  predicate IsBuffer(a: Action) {
    a.Buffer?
  }

  predicate IsSpawn(a: Action) {
    a.Spawn?
  }

  function BuffersLeft(p: Phase): nat {
    if p.MustBuffer? then 1 else 0
  }

  predicate BeforeSpawn(p: Phase) {
    p.Idle? || p.Popped? || p.MustFlush? || p.Processed? || p.MustBuffer?
  }

  lemma BuffersLeftStep(c: Context, s: WorkerState, a: Action, t: WorkerState)
    requires Step(c, s, a, t) && s.flag && BeforeSpawn(s.phase) && !a.Spawn?
    ensures t.flag && BeforeSpawn(t.phase)
    ensures BuffersLeft(t.phase) + (if a.Buffer? then 1 else 0) <= BuffersLeft(s.phase)
  {
    hide ProcessBook, BufferLine, BadLinesSeen, Buffered;
  }

  /**
   Once the flag is set outside the flush section, at most one more line is buffered before the next
   flush: the one whose flag test had already been passed.
   */
  lemma {:induction false} AtMostOneBufferBeforeFlush(c: Context, s: WorkerState, actions: seq<Action>)
    requires s.flag && BeforeSpawn(s.phase)
    requires Exec(c, s, actions).Some? && Filter(actions, IsSpawn) == []
    ensures var t := Exec(c, s, actions).value;
            && t.flag && BeforeSpawn(t.phase)
            && |Filter(actions, IsBuffer)| + BuffersLeft(t.phase) <= BuffersLeft(s.phase) <= 1
  {
    hide Next;
    if actions != [] {
      var front, last := actions[..|actions| - 1], actions[|actions| - 1];
      AtMostOneBufferBeforeFlush(c, s, front);
      BuffersLeftStep(c, Exec(c, s, front).value, last, Exec(c, s, actions).value);
    }
  }

  /** Every flushed ledger but possibly the first holds at least one line. */
  lemma LaterFlushesNotEmpty(c: Context, s: WorkerState, i: nat)
    requires c.config.WellFormed() && Reachable(c, s) && 1 <= i < |s.flushes|
    ensures LinesIn(s.flushes[i].ledger) >= 1
  {
    hide LedgerMatches, InOrder, FlushersJoined, InterruptsCover, PublishedMatches, LastSegmentIsCurrent,
      SubmissionsCounted, Snapshot, BookOf, Buffered, LinesIn;
    ReachableInv(c, s);
    SnapshotLines(c, s.history.segments[i], s.flushes[i].elapsed);
  }

  /**
   A ledger handed to the backends was processed once, after its last line: it is the processed
   ledger of its own segment, complete in counters and timers.
   */
  lemma FlushedLedgersComplete(c: Context, s: WorkerState, i: nat)
    requires c.config.WellFormed() && Reachable(c, s) && i < |s.flushes|
    ensures |s.history.segments| == |s.flushes|
    ensures var f := s.flushes[i].ledger;
            && f.counterRates.Keys == f.counters.Keys
            && (forall k :: k in f.counters ==>
                  Product(f.counterRates[k], Num(c.config.frequency as real)) == f.counters[k])
            && f.timerData.Keys == f.timers.Keys == f.timerCounters.Keys && "" !in f.timers
            && (forall k :: k in f.timers ==> f.timers[k] != [])
            && LinesIn(f) == |s.history.segments[i]|
            && f.frequency == map[]
  {
    hide LedgerMatches, InOrder, FlushersJoined, InterruptsCover, PublishedMatches, LastSegmentIsCurrent,
      SubmissionsCounted, BookOf, ProcessBook;
    ReachableInv(c, s);
    LedgerOrder.SnapshotComplete(c.config, s.history.segments[i], s.flushes[i].elapsed);
  }

  // ---------- longer runs ----------

  lemma ExecMore(c: Context, s: WorkerState, actions: seq<Action>, t: WorkerState, a: Action, r: WorkerState)
    requires Exec(c, s, actions) == Some(t) && Next(c, t, a) == Some(r)
    ensures Exec(c, s, actions + [a]) == Some(r)
  {
    hide Next;
    assert (actions + [a])[..|actions|] == actions;
  }

  lemma ReachableStep(c: Context, s: WorkerState, a: Action, t: WorkerState)
    requires Reachable(c, s) && Next(c, s, a) == Some(t)
    ensures Reachable(c, t)
  {
    hide Next;
    var actions :| Exec(c, Initial(), actions) == Some(s);
    ExecMore(c, Initial(), actions, s, a, t);
  }

  lemma InitialReachable(c: Context)
    ensures Reachable(c, Initial())
  {
    assert Exec(c, Initial(), []) == Some(Initial());
  }
}
