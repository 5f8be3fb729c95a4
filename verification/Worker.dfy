/**
 The objects of the aggregator as the program has them: the worker with its queue and ledger, the
 consumer that feeds it, the clock that interrupts it, and the container of backends. Each method is
 tied to the steps of the worker machine it performs.
 */
module WorkerObjects {
  import opened Arithmetic
  import opened Collections
  import opened LedgerModel
  import opened WorkerMachine
  import opened WorkerInvariants
  import opened WorkerTheorems

  datatype BackendKind = CarbonBackend | RepeaterBackend | StdoutBackend

  datatype Hand = Hand(backend: BackendKind, ledger: Book, flusher: int)

  class BackendContainer {
    var backends: seq<BackendKind>
    var locked: bool
    /** What the backends have been handed, in order. */
    var handed: seq<Hand>

    constructor (carbons: nat, repeaters: nat, stdout: bool)
      ensures backends == (if carbons > 0 then [CarbonBackend] else [])
                          + (if repeaters > 0 then [RepeaterBackend] else [])
                          + (if stdout then [StdoutBackend] else [])
      ensures !locked && handed == []
    {
      locked, handed, backends := false, [], [];
      new;
      if carbons > 0 {
        backends := backends + [CarbonBackend];
      }
      if repeaters > 0 {
        backends := backends + [RepeaterBackend];
      }
      if stdout {
        backends := backends + [StdoutBackend];
      }
    }

    /** Waits for the lock, so it starts with the lock free, and hands the ledger to each backend once. */
    method Flush(ledger: Book, flusherId: int)
      requires !locked
      modifies this`locked, this`handed
      ensures !locked
      ensures |handed| == |old(handed)| + |backends| && handed[..|old(handed)|] == old(handed)
      ensures forall i :: 0 <= i < |backends| ==>
                handed[|old(handed)| + i] == Hand(backends[i], ledger, flusherId)
    {
      locked := true;
      for i := 0 to |backends|
        invariant locked && |handed| == |old(handed)| + i && handed[..|old(handed)|] == old(handed)
        invariant forall j :: 0 <= j < i ==> handed[|old(handed)| + j] == Hand(backends[j], ledger, flusherId)
      {
        handed := handed + [Hand(backends[i], ledger, flusherId)];
      }
      locked := false;
    }
  }

  /** What flusher `i` has still to do: get the lock, deliver to each backend, and end. */
  function RemainingSteps(c: Context, i: nat, status: FlushStatus): seq<Action> {
    match status
    case Waiting => [Start(i)] + seq(c.backends, _ => Deliver(i)) + [Finish(i)]
    case Inside(delivered) => seq(AtLeastZero(c.backends - delivered), _ => Deliver(i)) + [Finish(i)]
    case Done => []
  }

  /** Overwriting the guard of the flusher before waits for it. */
  function JoinSteps(c: Context, flushes: seq<Flush>): seq<Action> {
    if flushes == [] then [] else RemainingSteps(c, |flushes| - 1, flushes[|flushes| - 1].status)
  }

  function FlushSteps(c: Context, flushes: seq<Flush>, elapsed: int): seq<Action> {
    [Process(elapsed), Spawn] + JoinSteps(c, flushes) + [Join, Publish, Renew, ClearFlag]
  }

  /** The steps of one round of the worker's loop, and of the flusher it has to wait for. */
  function RoundActions(c: Context, flag: bool, flushes: seq<Flush>, elapsed: int): seq<Action> {
    if flag then [Pop, TestFlag] + FlushSteps(c, flushes, elapsed) + [Buffer] else [Pop, TestFlag, Buffer]
  }

  class Worker {
    var workQueue: seq<string>
    var metricsDropped: nat
    var interruptFlag: bool
    var currentLedger: Ledger
    var count: nat
    var flushes: seq<Flush>
    var badLinesSeen: int
    var frequency: map<string, int>
    var metricsRate: int
    ghost var joined: nat
    ghost var history: History

    /** The worker as a state of the worker machine, its loop standing at the given phase. */
    ghost function At(p: Phase): WorkerState
      reads this, currentLedger
    {
      WorkerState(workQueue, metricsDropped, interruptFlag, p, currentLedger.Contents(), count, flushes,
                  joined, badLinesSeen, frequency, metricsRate, history)
    }

    /** The worker between two rounds of its loop. */
    ghost function View(): WorkerState
      reads this, currentLedger
    {
      At(Idle)
    }

    constructor ()
      ensures View() == Initial() && fresh(currentLedger)
    {
      workQueue, metricsDropped, interruptFlag, count, flushes := [], 0, false, 0, [];
      badLinesSeen, frequency, metricsRate, joined := 0, map[], 0, 0;
      history := History([], [], [], [], 0, 0);
      currentLedger := new Ledger();
    }

    method Submit(metric: string)
      modifies this`workQueue, this`metricsDropped, this`history
      ensures View() == NextSubmit(old(View()), metric)
    {
      history := history.(submitted := history.submitted + [metric]);
      if |workQueue| < QUEUE_CAPACITY {
        workQueue := workQueue + [metric];
        history := history.(accepted := history.accepted + [metric]);
      } else {
        metricsDropped := metricsDropped + 1;
      }
    }

    method RaiseInterrupt()
      modifies this`interruptFlag, this`history
      ensures interruptFlag && View() == NextInterrupt(old(View()))
    {
      interruptFlag := true;
      history := history.(interrupts := history.interrupts + 1,
                          outsideInterrupts := history.outsideInterrupts + 1);
    }

    /**
     One round of `process`. If it flushes, it waits for the flusher before to end. The flusher started
     here has not moved yet when the round ends.
     */
    method Round(c: Context, elapsed: int) returns (popped: bool)
      requires c.config.WellFormed() && Inv(c, View())
      modifies this, currentLedger
      ensures popped <==> old(workQueue) != []
      ensures !popped ==> View() == old(View())
      ensures popped ==>
                Exec(c, old(View()), RoundActions(c, old(interruptFlag), old(flushes), elapsed)) == Some(View())
      ensures Inv(c, View())
      ensures currentLedger == old(currentLedger) || fresh(currentLedger)
    {
      hide Inv, Next, Exec, RoundActions, FlushSteps;
      if workQueue == [] {
        return false;
      }
      popped := true;
      var metric := TakeLine(c);
      ghost var s1 := At(Popped(metric));
      ghost var s2 := s1.(phase := if interruptFlag then MustFlush(metric) else MustBuffer(metric));
      FlagTest(c, s1, metric);
      StepKeepsInv(c, old(View()), Pop, s1);
      StepKeepsInv(c, s1, TestFlag, s2);
      if interruptFlag {
        FlushLedger(c, elapsed, metric);
      }
      ghost var s8 := At(MustBuffer(metric));
      BufferMetric(c, metric);
      StepKeepsInv(c, s8, Buffer, View());
      RoundExec(c, old(View()), s1, s2, elapsed, s8, View(), old(interruptFlag), old(flushes));
    }

    method TakeLine(c: Context) returns (metric: string)
      requires workQueue != []
      modifies this`workQueue
      ensures metric == old(workQueue[0])
      ensures Next(c, old(View()), Pop) == Some(At(Popped(metric)))
    {
      hide ProcessBook, BufferLine, BadLinesSeen, Buffered, CopyBook;
      metric := workQueue[0];
      workQueue := workQueue[1..];
    }

    method BufferMetric(c: Context, metric: string)
      modifies this`count, this`history, currentLedger
      ensures Next(c, old(At(MustBuffer(metric))), Buffer) == Some(View())
    {
      hide ProcessBook, BufferLine, BadLinesSeen, Buffered, CopyBook;
      currentLedger.Buffer(c.config, metric);
      count := count + 1;
      history := history.(current := history.current + [metric]);
    }

    /** The body of the flag test: process, start a flusher with a copy, publish, start afresh. */
    method FlushLedger(c: Context, elapsed: int, ghost line: string)
      requires c.config.WellFormed() && Inv(c, At(MustFlush(line)))
      modifies this, currentLedger
      ensures fresh(currentLedger)
      ensures Exec(c, old(At(MustFlush(line))), FlushSteps(c, old(flushes), elapsed)) == Some(At(MustBuffer(line)))
      ensures Inv(c, At(MustBuffer(line)))
    {
      hide Inv, Next, Exec, JoinSteps, FlushSteps;
      ghost var s2 := At(MustFlush(line));
      ProcessLedger(c, elapsed, line);
      ghost var s3 := At(Processed(line, elapsed));
      StepKeepsInv(c, s2, Process(elapsed), s3);
      StartFlusher(c, elapsed, line);
      ghost var s4 := At(Spawned(line, elapsed));
      StepKeepsInv(c, s3, Spawn, s4);
      JoinFlusher(c, elapsed, line);
      ghost var s5 := At(Joined(line, elapsed));
      PublishStatus(c, elapsed, line);
      ghost var s6 := At(Published(line, elapsed));
      RenewLedger(c, elapsed, line);
      ghost var s7 := At(Renewed(line));
      ClearInterrupt(c, line);
      FlushExec(c, old(flushes), s2, elapsed, s3, s4, s5, s6, s7, At(MustBuffer(line)));
      ExecKeepsInv(c, s2, FlushSteps(c, old(flushes), elapsed));
    }

    method ProcessLedger(c: Context, elapsed: int, ghost line: string)
      requires c.config.WellFormed() && Inv(c, At(MustFlush(line)))
      modifies currentLedger
      ensures Next(c, old(At(MustFlush(line))), Process(elapsed)) == Some(At(Processed(line, elapsed)))
    {
      ProcessAlwaysPossible(c, At(MustFlush(line)), elapsed);
      hide Inv, ProcessBook, BufferLine, BadLinesSeen, CopyBook, Buffered;
      currentLedger.Process(c.config, elapsed);
    }

    method StartFlusher(c: Context, elapsed: int, ghost line: string)
      modifies this`flushes, this`history
      ensures Next(c, old(At(Processed(line, elapsed))), Spawn) == Some(At(Spawned(line, elapsed)))
      ensures |flushes| == |old(flushes)| + 1 && flushes[..|old(flushes)|] == old(flushes)
    {
      hide ProcessBook, BufferLine, BadLinesSeen, Buffered, CopyBook;
      var copy := new Ledger.Copy(currentLedger);
      flushes := flushes + [Flush(copy.Contents(), elapsed, Waiting)];
      history := history.(segments := history.segments + [history.current]);
    }

    /** Overwriting the guard of the flusher before waits until that one has done what it has to do. */
    method JoinFlusher(c: Context, elapsed: int, ghost line: string)
      requires c.config.WellFormed() && flushes != [] && Inv(c, At(Spawned(line, elapsed)))
      modifies this`flushes, this`joined
      ensures Exec(c, old(At(Spawned(line, elapsed))), JoinSteps(c, old(flushes[..|flushes| - 1])) + [Join])
           == Some(At(Joined(line, elapsed)))
    {
      hide Inv, Next, Exec, JoinSteps;
      JoinedAfterEnd(c, At(Spawned(line, elapsed)));
      if |flushes| >= 2 {
        var i := |flushes| - 2;
        flushes := flushes[i := flushes[i].(status := Done)];
      }
      joined := |flushes| - 1;
    }

    method PublishStatus(c: Context, elapsed: int, ghost line: string)
      modifies this`badLinesSeen, this`frequency
      ensures Next(c, old(At(Joined(line, elapsed))), Publish) == Some(At(Published(line, elapsed)))
    {
      hide ProcessBook, BufferLine, BadLinesSeen, Buffered, CopyBook;
      badLinesSeen := currentLedger.CountBadLines(c.config);
      frequency := currentLedger.frequency;
    }

    method RenewLedger(c: Context, elapsed: int, ghost line: string)
      requires c.config.WellFormed()
      modifies this`currentLedger, this`metricsRate, this`count, this`history
      ensures fresh(currentLedger)
      ensures Next(c, old(At(Published(line, elapsed))), Renew) == Some(At(Renewed(line)))
    {
      hide ProcessBook, BufferLine, BadLinesSeen, Buffered, CopyBook;
      currentLedger := new Ledger();
      metricsRate := count / c.config.frequency;
      count := 0;
      history := history.(current := []);
    }

    method ClearInterrupt(c: Context, ghost line: string)
      modifies this`interruptFlag
      ensures Next(c, old(At(Renewed(line))), ClearFlag) == Some(At(MustBuffer(line)))
    {
      hide ProcessBook, BufferLine, BadLinesSeen, Buffered, CopyBook;
      interruptFlag := false;
    }
  }

  lemma FlagTest(c: Context, s: WorkerState, line: string)
    requires s.phase == Popped(line)
    ensures Next(c, s, TestFlag) == Some(s.(phase := if s.flag then MustFlush(line) else MustBuffer(line)))
  {
    hide ProcessBook, BufferLine, BadLinesSeen, Buffered, CopyBook;
  }

  lemma ExecOne(c: Context, s: WorkerState, a: Action, t: WorkerState)
    requires Next(c, s, a) == Some(t)
    ensures Exec(c, s, [a]) == Some(t)
  {
    hide Next;
    assert Exec(c, s, []) == Some(s);
    assert [a][..0] == [];
  }

  lemma {:induction false} ExecAppend(c: Context, s: WorkerState, xs: seq<Action>, t: WorkerState, ys: seq<Action>)
    requires Exec(c, s, xs) == Some(t)
    ensures Exec(c, s, xs + ys) == Exec(c, t, ys)
  {
    hide Next;
    if ys == [] {
      assert xs + ys == xs;
    } else {
      assert (xs + ys)[..|xs + ys| - 1] == xs + ys[..|ys| - 1];
      ExecAppend(c, s, xs, t, ys[..|ys| - 1]);
    }
  }

  lemma {:induction false} DeliversAll(c: Context, s: WorkerState, i: nat, n: nat)
    requires i < |s.flushes| && s.flushes[i].status.Inside? && s.flushes[i].status.delivered + n <= c.backends
    ensures Exec(c, s, seq(n, _ => Deliver(i))) == Some(SetStatus(s, i, Inside(s.flushes[i].status.delivered + n)))
  {
    hide ProcessBook, BufferLine, BadLinesSeen, Buffered, CopyBook;
    var steps := seq(n, _ => Deliver(i));
    if n == 0 {
      assert SetStatus(s, i, s.flushes[i].status) == s;
    } else {
      var front := seq(n - 1, _ => Deliver(i));
      assert steps == front + [Deliver(i)];
      DeliversAll(c, s, i, n - 1);
      var delivered := s.flushes[i].status.delivered;
      var t, r := SetStatus(s, i, Inside(delivered + n - 1)), SetStatus(s, i, Inside(delivered + n));
      assert SetStatus(t, i, Inside(delivered + n)) == r;
      assert Next(c, t, Deliver(i)) == Some(r);
      ExecMore(c, s, front, t, Deliver(i), r);
    }
  }

  lemma InsideEnds(c: Context, s: WorkerState, i: nat)
    requires i < |s.flushes| && s.flushes[i].status.Inside? && s.flushes[i].status.delivered <= c.backends
    ensures Exec(c, s, RemainingSteps(c, i, s.flushes[i].status)) == Some(SetStatus(s, i, Done))
  {
    hide ProcessBook, BufferLine, BadLinesSeen, Buffered, CopyBook, Exec;
    var left := c.backends - s.flushes[i].status.delivered;
    var delivers, last := seq(left, _ => Deliver(i)), SetStatus(s, i, Inside(c.backends));
    DeliversAll(c, s, i, left);
    ExecMore(c, s, delivers, last, Finish(i), SetStatus(last, i, Done));
    assert RemainingSteps(c, i, s.flushes[i].status) == delivers + [Finish(i)];
    assert SetStatus(last, i, Done) == SetStatus(s, i, Done);
  }

  lemma WaitingEnds(c: Context, s: WorkerState, i: nat)
    requires i < |s.flushes| && s.flushes[i].status.Waiting?
    ensures Exec(c, s, RemainingSteps(c, i, Waiting)) == Some(SetStatus(s, i, Done))
  {
    hide ProcessBook, BufferLine, BadLinesSeen, Buffered, CopyBook, Exec;
    var inside := SetStatus(s, i, Inside(0));
    var rest := RemainingSteps(c, i, Inside(0));
    ExecOne(c, s, Start(i), inside);
    InsideEnds(c, inside, i);
    ExecAppend(c, s, [Start(i)], inside, rest);
    assert RemainingSteps(c, i, Waiting) == [Start(i)] + rest;
    assert SetStatus(inside, i, Done) == SetStatus(s, i, Done);
  }

  /** A flusher that takes its remaining steps ends. */
  lemma FlusherEnds(c: Context, s: WorkerState, i: nat)
    requires i < |s.flushes| && (s.flushes[i].status.Inside? ==> s.flushes[i].status.delivered <= c.backends)
    ensures Exec(c, s, RemainingSteps(c, i, s.flushes[i].status)) == Some(SetStatus(s, i, Done))
  {
    match s.flushes[i].status {
      case Waiting => WaitingEnds(c, s, i);
      case Inside(_) => InsideEnds(c, s, i);
      case Done =>
        hide Next;
        assert SetStatus(s, i, Done) == s;
    }
  }

  lemma JoinedAfterEnd(c: Context, s: WorkerState)
    requires c.config.WellFormed() && s.flushes != [] && s.phase.Spawned? && Inv(c, s)
    ensures var n := |s.flushes|;
            var ended := if n < 2 then s else SetStatus(s, n - 2, Done);
            Exec(c, s, JoinSteps(c, s.flushes[..n - 1]) + [Join])
            == Some(ended.(phase := Joined(s.phase.line, s.phase.elapsed), joined := n - 1))
  {
    hide FlushesMatch, LedgerMatches, InOrder, InterruptsCover, SegmentsNotEmpty, PublishedMatches,
      LastSegmentIsCurrent, SubmissionsCounted;
    var n := |s.flushes|;
    var steps := JoinSteps(c, s.flushes[..n - 1]);
    var ended := if n < 2 then s else SetStatus(s, n - 2, Done);
    if n >= 2 {
      FlusherEnds(c, s, n - 2);
    }
    assert Exec(c, s, steps) == Some(ended);
    ExecOne(c, ended, Join, ended.(phase := Joined(s.phase.line, s.phase.elapsed), joined := n - 1));
    ExecAppend(c, s, steps, ended, [Join]);
  }

  lemma RoundBegins(c: Context, s0: WorkerState, s1: WorkerState, s2: WorkerState)
    requires Next(c, s0, Pop) == Some(s1) && Next(c, s1, TestFlag) == Some(s2)
    ensures Exec(c, s0, [Pop, TestFlag]) == Some(s2)
  {
    hide Next, Exec;
    ExecOne(c, s0, Pop, s1);
    ExecMore(c, s0, [Pop], s1, TestFlag, s2);
    assert [Pop] + [TestFlag] == [Pop, TestFlag];
  }

  lemma RoundExec(c: Context, s0: WorkerState, s1: WorkerState, s2: WorkerState, elapsed: int,
                  s8: WorkerState, s9: WorkerState, flushed: bool, flushes: seq<Flush>)
    requires Next(c, s0, Pop) == Some(s1) && Next(c, s1, TestFlag) == Some(s2) && Next(c, s8, Buffer) == Some(s9)
    requires if flushed then Exec(c, s2, FlushSteps(c, flushes, elapsed)) == Some(s8) else s8 == s2
    ensures Exec(c, s0, RoundActions(c, flushed, flushes, elapsed)) == Some(s9)
  {
    hide Next, Exec, FlushSteps;
    RoundBegins(c, s0, s1, s2);
    if flushed {
      ExecAppend(c, s0, [Pop, TestFlag], s2, FlushSteps(c, flushes, elapsed));
      ExecMore(c, s0, [Pop, TestFlag] + FlushSteps(c, flushes, elapsed), s8, Buffer, s9);
    } else {
      ExecMore(c, s0, [Pop, TestFlag], s8, Buffer, s9);
      assert [Pop, TestFlag] + [Buffer] == [Pop, TestFlag, Buffer];
    }
  }

  lemma FlushExec(c: Context, flushes: seq<Flush>, s2: WorkerState, elapsed: int, s3: WorkerState, s4: WorkerState,
                  s5: WorkerState, s6: WorkerState, s7: WorkerState, s8: WorkerState)
    requires Next(c, s2, Process(elapsed)) == Some(s3) && Next(c, s3, Spawn) == Some(s4)
    requires Exec(c, s4, JoinSteps(c, flushes) + [Join]) == Some(s5)
    requires Next(c, s5, Publish) == Some(s6) && Next(c, s6, Renew) == Some(s7) && Next(c, s7, ClearFlag) == Some(s8)
    ensures Exec(c, s2, FlushSteps(c, flushes, elapsed)) == Some(s8)
  {
    hide Next, Exec, JoinSteps;
    ExecOne(c, s2, Process(elapsed), s3);
    ExecMore(c, s2, [Process(elapsed)], s3, Spawn, s4);
    var done, wait := [Process(elapsed)] + [Spawn], JoinSteps(c, flushes);
    ExecAppend(c, s2, done, s4, wait + [Join]);
    ExecMore(c, s2, done + (wait + [Join]), s5, Publish, s6);
    ExecMore(c, s2, done + (wait + [Join]) + [Publish], s6, Renew, s7);
    ExecMore(c, s2, done + (wait + [Join]) + [Publish] + [Renew], s7, ClearFlag, s8);
    assert done + (wait + [Join]) + [Publish] + [Renew] + [ClearFlag] == FlushSteps(c, flushes, elapsed);
  }
}
