/**
 Every step of the worker machine keeps its invariant, one part of it at a time.
 */
module WorkerInvariants {
  import opened Collections
  import opened Config
  import opened LedgerModel
  import opened LedgerMeaning
  import LedgerOrder
  import opened WorkerMachine

  ghost predicate Step(c: Context, s: WorkerState, a: Action, t: WorkerState) {
    Next(c, s, a) == Some(t)
  }

  lemma InitialInv(c: Context)
    requires c.config.WellFormed()
    ensures Inv(c, Initial())
  {
    LedgerOrder.BufferedBook(c.config.BadLinesKey(), []);
  }

  /** Which fields a step leaves alone. */
  lemma FrameOfStep(c: Context, s: WorkerState, a: Action, t: WorkerState)
    requires Step(c, s, a, t)
    ensures !a.Submit? ==> t.history.submitted == s.history.submitted && t.history.accepted == s.history.accepted
                           && t.dropped == s.dropped
    ensures !a.Submit? && !a.Pop? ==> t.queue == s.queue
    ensures !a.Interrupt? && !a.ClearFlag? ==> t.flag == s.flag
    ensures !a.Interrupt? ==> t.history.interrupts == s.history.interrupts
                              && t.history.outsideInterrupts == s.history.outsideInterrupts
    ensures !a.Spawn? ==> t.history.segments == s.history.segments && |t.flushes| == |s.flushes|
    ensures a.Submit? || a.Interrupt? || a.Start? || a.Deliver? || a.Finish? ==>
              t.phase == s.phase && t.ledger == s.ledger && t.count == s.count && t.joined == s.joined
              && t.history.current == s.history.current
              && t.frequency == s.frequency && t.badLinesSeen == s.badLinesSeen
    ensures !a.Process? && !a.Renew? && !a.Buffer? ==> t.ledger == s.ledger
    ensures !a.Renew? && !a.Buffer? ==> t.count == s.count && t.history.current == s.history.current
    ensures !a.Publish? ==> t.frequency == s.frequency && t.badLinesSeen == s.badLinesSeen
    ensures !a.Join? ==> t.joined == s.joined
    ensures !a.Spawn? && !a.Start? && !a.Deliver? && !a.Finish? ==> t.flushes == s.flushes
    ensures |s.flushes| <= |t.flushes|
    ensures forall i :: 0 <= i < |s.flushes| ==>
              t.flushes[i].ledger == s.flushes[i].ledger && t.flushes[i].elapsed == s.flushes[i].elapsed
  {
    hide ProcessBook, BufferLine, BadLinesSeen, Buffered;
  }

  lemma PhaseOfStep(c: Context, s: WorkerState, a: Action, t: WorkerState)
    requires Step(c, s, a, t)
    ensures a.Spawn? ==> t.phase.Spawned?
    ensures a.Join? ==> t.phase.Joined?
    ensures s.phase.Spawned? && !a.Join? ==> t.phase == s.phase
    ensures s.phase.Joined? && !a.Publish? ==> t.phase == s.phase
  {
    hide ProcessBook, BufferLine, BadLinesSeen, Buffered, CopyBook;
  }

  lemma KeepsFlushesMatch(c: Context, s: WorkerState, a: Action, t: WorkerState)
    requires c.config.WellFormed() && Step(c, s, a, t)
    requires FlushesMatch(c, s) && LedgerMatches(c, s)
    ensures FlushesMatch(c, t)
  {
    hide ProcessBook, BufferLine, BadLinesSeen, Buffered, BookOf, CopyBook;
    if !a.Spawn? {
      FrameOfStep(c, s, a, t);
      hide Next;
    }
  }

  lemma LedgerAfterBuffer(c: Context, s: WorkerState, t: WorkerState)
    requires c.config.WellFormed() && Step(c, s, Buffer, t) && LedgerMatches(c, s)
    ensures LedgerMatches(c, t)
  {
    hide ProcessBook, BufferLine, BadLinesSeen, Buffered, BookOf;
    BookOfOneMore(c.config.BadLinesKey(), s.history.current, s.phase.line);
    LedgerOrder.BufferedBook(c.config.BadLinesKey(), t.history.current);
  }

  lemma LedgerAfterRenew(c: Context, s: WorkerState, t: WorkerState)
    requires c.config.WellFormed() && Step(c, s, Renew, t)
    ensures LedgerMatches(c, t)
  {
    hide ProcessBook, BufferLine, BadLinesSeen, Buffered;
    LedgerOrder.BufferedBook(c.config.BadLinesKey(), []);
  }

  lemma LedgerAfterProcess(c: Context, s: WorkerState, took: int, t: WorkerState)
    requires c.config.WellFormed() && Step(c, s, Process(took), t) && LedgerMatches(c, s)
    ensures LedgerMatches(c, t)
  {
    hide ProcessBook, BufferLine, BadLinesSeen, Buffered, BookOf, CopyBook;
  }

  lemma KeepsLedgerMatches(c: Context, s: WorkerState, a: Action, t: WorkerState)
    requires c.config.WellFormed() && Step(c, s, a, t) && LedgerMatches(c, s)
    ensures LedgerMatches(c, t)
  {
    if a.Buffer? {
      LedgerAfterBuffer(c, s, t);
    } else if a.Renew? {
      LedgerAfterRenew(c, s, t);
    } else if a.Process? {
      LedgerAfterProcess(c, s, a.took, t);
    } else {
      FrameOfStep(c, s, a, t);
      hide ProcessBook, BufferLine, BadLinesSeen, Buffered, BookOf, CopyBook;
    }
  }

  lemma KeepsLastSegment(c: Context, s: WorkerState, a: Action, t: WorkerState)
    requires Step(c, s, a, t) && LastSegmentIsCurrent(s)
    ensures LastSegmentIsCurrent(t)
  {
    hide ProcessBook, BufferLine, BadLinesSeen, Buffered;
  }

  lemma Regroup(a: seq<string>, b: seq<string>, c: seq<string>, d: seq<string>)
    ensures a + b + c + d == a + (b + c) + d && a + b + c + d == a + b + (c + d)
    ensures a + b + [] == a + b && a + [] + b == a + b
  {
  }

  lemma InOrderAfterPop(c: Context, s: WorkerState, t: WorkerState)
    requires Step(c, s, Pop, t) && InOrder(s)
    ensures InOrder(t)
  {
    assert s.queue == [s.queue[0]] + s.queue[1..];
    Regroup(Flatten(s.history.segments), Unflushed(s), [s.queue[0]], s.queue[1..]);
    Regroup(Flatten(s.history.segments), Unflushed(s), [], []);
    hide Flatten;
  }

  lemma InOrderAfterSpawn(c: Context, s: WorkerState, t: WorkerState)
    requires Step(c, s, Spawn, t) && InOrder(s)
    ensures InOrder(t)
  {
    hide Flatten, CopyBook;
    FlattenSnoc(s.history.segments, s.history.current);
    Regroup(Flatten(s.history.segments), s.history.current, [], []);
  }

  lemma InOrderAfterBuffer(c: Context, s: WorkerState, t: WorkerState)
    requires Step(c, s, Buffer, t) && InOrder(s)
    ensures InOrder(t)
  {
    hide Flatten, BufferLine;
    Regroup(Flatten(s.history.segments), s.history.current, [s.phase.line], s.queue);
    Regroup(Flatten(s.history.segments), s.history.current + [s.phase.line], [], []);
  }

  lemma InOrderAfterSubmit(c: Context, s: WorkerState, line: string, t: WorkerState)
    requires Step(c, s, Submit(line), t) && InOrder(s)
    ensures InOrder(t)
  {
    hide Flatten;
    Regroup(Flatten(s.history.segments) + Unflushed(s), InHand(s.phase), s.queue, [line]);
  }

  lemma KeepsInOrder(c: Context, s: WorkerState, a: Action, t: WorkerState)
    requires Step(c, s, a, t) && InOrder(s) && LastSegmentIsCurrent(s)
    requires s.phase.Renewed? ==> s.history.current == []
    ensures InOrder(t)
  {
    match a {
      case Pop => InOrderAfterPop(c, s, t);
      case Spawn => InOrderAfterSpawn(c, s, t);
      case Buffer => InOrderAfterBuffer(c, s, t);
      case Submit(line) => InOrderAfterSubmit(c, s, line, t);
      case _ =>
        hide ProcessBook, BufferLine, BadLinesSeen, Buffered, Flatten, CopyBook;
    }
  }

  lemma KeepsSubmissionsCounted(c: Context, s: WorkerState, a: Action, t: WorkerState)
    requires Step(c, s, a, t) && SubmissionsCounted(s)
    ensures SubmissionsCounted(t)
  {
    hide ProcessBook, BufferLine, BadLinesSeen, Buffered;
  }

  lemma KeepsFlushersJoined(c: Context, s: WorkerState, a: Action, t: WorkerState)
    requires Step(c, s, a, t) && FlushersJoined(c, s)
    ensures FlushersJoined(c, t)
  {
    hide ProcessBook, BufferLine, BadLinesSeen, Buffered, CopyBook;
  }

  lemma KeepsInterruptsCover(c: Context, s: WorkerState, a: Action, t: WorkerState)
    requires Step(c, s, a, t) && InterruptsCover(s)
    ensures InterruptsCover(t)
  {
    hide ProcessBook, BufferLine, BadLinesSeen, Buffered, CopyBook;
  }

  lemma KeepsSegmentsNotEmpty(c: Context, s: WorkerState, a: Action, t: WorkerState)
    requires Step(c, s, a, t) && SegmentsNotEmpty(s)
    ensures SegmentsNotEmpty(t)
  {
    hide ProcessBook, BufferLine, BadLinesSeen, Buffered, CopyBook;
  }

  lemma ProcessKeepsStatus(b: Book, config: AggregatorConfig, elapsed: int)
    requires config.WellFormed() && Buffered(b)
    ensures ProcessBook(b, config, elapsed).frequency == b.frequency
    ensures BadLinesSeen(ProcessBook(b, config, elapsed), config.BadLinesKey()) == BadLinesSeen(b, config.BadLinesKey())
  {
  }

  lemma PublishStep(c: Context, s: WorkerState, t: WorkerState)
    requires Step(c, s, Publish, t)
    ensures s.phase.Joined? && t.frequency == s.ledger.frequency
    ensures t.badLinesSeen == BadLinesSeen(s.ledger, c.config.BadLinesKey())
    ensures t.flushes == s.flushes && t.history == s.history
  {
    hide BadLinesSeen;
  }

  lemma PublishedAfterPublish(c: Context, s: WorkerState, t: WorkerState)
    requires c.config.WellFormed() && Step(c, s, Publish, t)
    requires LedgerMatches(c, s) && LastSegmentIsCurrent(s) && |s.history.segments| == |s.flushes|
    ensures PublishedMatches(c, t)
  {
    hide ProcessBook, BadLinesSeen, Buffered, BookOf, Step;
    PublishStep(c, s, t);
    ProcessKeepsStatus(BookOf(c.config.BadLinesKey(), s.history.current), c.config, s.phase.elapsed);
  }

  lemma KeepsPublishedMatches(c: Context, s: WorkerState, a: Action, t: WorkerState)
    requires c.config.WellFormed() && Step(c, s, a, t)
    requires PublishedMatches(c, s) && LedgerMatches(c, s) && LastSegmentIsCurrent(s)
    ensures PublishedMatches(c, t)
  {
    if a.Publish? {
      PublishedAfterPublish(c, s, t);
    } else {
      FrameOfStep(c, s, a, t);
      PhaseOfStep(c, s, a, t);
      hide Next, BookOf, BadLinesSeen, LedgerMatches;
    }
  }

  /** The invariant holds after every step. */
  lemma StepKeepsInv(c: Context, s: WorkerState, a: Action, t: WorkerState)
    requires c.config.WellFormed() && Step(c, s, a, t) && Inv(c, s)
    ensures Inv(c, t)
  {
    hide Step, FlushesMatch, LastSegmentIsCurrent, InOrder, SubmissionsCounted, FlushersJoined,
      InterruptsCover, PublishedMatches, ProcessBook, BookOf, Buffered;
    KeepsFlushesMatch(c, s, a, t);
    KeepsLedgerMatches(c, s, a, t);
    KeepsLastSegment(c, s, a, t);
    KeepsInOrder(c, s, a, t);
    KeepsSubmissionsCounted(c, s, a, t);
    KeepsFlushersJoined(c, s, a, t);
    KeepsInterruptsCover(c, s, a, t);
    KeepsSegmentsNotEmpty(c, s, a, t);
    KeepsPublishedMatches(c, s, a, t);
  }

  /** The guard on `Process` that keeps the model's functions defined never blocks a worker. */
  lemma ProcessAlwaysPossible(c: Context, s: WorkerState, took: int)
    requires c.config.WellFormed() && Inv(c, s) && s.phase.MustFlush?
    ensures Next(c, s, Process(took)).Some?
  {
    hide FlushesMatch, InOrder, BookOf, Buffered, ProcessBook;
  }

  lemma {:induction false} ExecKeepsInv(c: Context, s: WorkerState, actions: seq<Action>)
    requires c.config.WellFormed() && Inv(c, s)
    ensures Exec(c, s, actions).Some? ==> Inv(c, Exec(c, s, actions).value)
  {
    hide Next, Inv;
    if actions != [] {
      var front, last := actions[..|actions| - 1], actions[|actions| - 1];
      ExecKeepsInv(c, s, front);
      if Exec(c, s, actions).Some? {
        StepKeepsInv(c, Exec(c, s, front).value, last, Exec(c, s, actions).value);
      }
    }
  }
}
