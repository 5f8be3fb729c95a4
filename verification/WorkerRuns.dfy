/**
 A run of a worker up to its second flusher, while the first has not moved.
 */
module WorkerRuns {
  import opened Collections
  import opened LedgerModel
  import opened LedgerMeaning
  import opened WorkerMachine
  import opened WorkerTheorems

  /** Submit a line, raise the flag, and take the worker up to the start of a flusher. */
  function UpToSpawn(line: string): seq<Action> {
    [Submit(line), Interrupt, Pop, TestFlag, Process(0), Spawn]
  }

  /** From there to the end of the round. */
  const REST_OF_ROUND: seq<Action> := [Join, Publish, Renew, ClearFlag, Buffer]

  ghost predicate Runs(c: Context, actions: seq<Action>, s: WorkerState) {
    Exec(c, Initial(), actions) == Some(s)
  }

  lemma OneMore(c: Context, actions: seq<Action>, s: WorkerState, a: Action, t: WorkerState)
    requires Runs(c, actions, s) && Next(c, s, a) == Some(t)
    ensures Runs(c, actions + [a], t)
  {
    hide Next, Exec;
    ExecMore(c, Initial(), actions, s, a, t);
  }

  /** A round without a flush. */
  function BufferRound(line: string): seq<Action> {
    [Submit(line), Pop, TestFlag, Buffer]
  }

  lemma RunToBuffered(c: Context, line: string) returns (t: WorkerState)
    ensures Runs(c, BufferRound(line), t) && t.phase.Idle? && t.queue == [] && t.flushes == [] && t.dropped == 0
    ensures t.history.segments == [] && t.history.current == [line] && t.history.submitted == [line]
  {
    hide BufferLine, Runs;
    InitialRuns(c);
    var s1 := NextSubmit(Initial(), line);
    OneMore(c, [], Initial(), Submit(line), s1);
    var s2 := Next(c, s1, Pop).value;
    OneMore(c, [] + [Submit(line)], s1, Pop, s2);
    var s3 := Next(c, s2, TestFlag).value;
    OneMore(c, [] + [Submit(line)] + [Pop], s2, TestFlag, s3);
    t := Next(c, s3, Buffer).value;
    OneMore(c, [] + [Submit(line)] + [Pop] + [TestFlag], s3, Buffer, t);
    assert [] + [Submit(line)] + [Pop] + [TestFlag] + [Buffer] == BufferRound(line);
  }

  lemma InitialRuns(c: Context)
    ensures Runs(c, [], Initial())
  {
  }

  lemma FlagTaken(c: Context, actions: seq<Action>, s: WorkerState)
    requires c.config.WellFormed() && Runs(c, actions, s) && s.phase.MustFlush?
    ensures Buffered(s.ledger)
  {
    hide FlushesMatch, InOrder, FlushersJoined, InterruptsCover, SegmentsNotEmpty, PublishedMatches,
      LastSegmentIsCurrent, SubmissionsCounted, BookOf, ProcessBook, Buffered, Exec;
    ReachableInv(c, s);
  }

  lemma RunToSpawn(c: Context, done: seq<Action>, s: WorkerState, line: string) returns (t: WorkerState)
    requires c.config.WellFormed() && Runs(c, done, s) && s.phase.Idle? && s.queue == []
    ensures Runs(c, done + UpToSpawn(line), t) && t.phase.Spawned? && t.queue == []
    ensures |t.flushes| == |s.flushes| + 1 && t.flushes[|s.flushes|].status.Waiting?
    ensures t.flushes[..|s.flushes|] == s.flushes && t.phase.line == line
    ensures t.history.segments == s.history.segments + [s.history.current] && t.history.current == s.history.current
    ensures t.history.submitted == s.history.submitted + [line] && t.dropped == s.dropped
  {
    hide ProcessBook, BookOf, Buffered, CopyBook, Runs;
    var s1 := NextSubmit(s, line);
    OneMore(c, done, s, Submit(line), s1);
    var s2 := NextInterrupt(s1);
    OneMore(c, done + [Submit(line)], s1, Interrupt, s2);
    var s3 := Next(c, s2, Pop).value;
    OneMore(c, done + [Submit(line)] + [Interrupt], s2, Pop, s3);
    var s4 := Next(c, s3, TestFlag).value;
    OneMore(c, done + [Submit(line)] + [Interrupt] + [Pop], s3, TestFlag, s4);
    FlagTaken(c, done + [Submit(line)] + [Interrupt] + [Pop] + [TestFlag], s4);
    var s5 := Next(c, s4, Process(0)).value;
    OneMore(c, done + [Submit(line)] + [Interrupt] + [Pop] + [TestFlag], s4, Process(0), s5);
    t := NextSpawn(s5);
    OneMore(c, done + [Submit(line)] + [Interrupt] + [Pop] + [TestFlag] + [Process(0)], s5, Spawn, t);
    assert done + [Submit(line)] + [Interrupt] + [Pop] + [TestFlag] + [Process(0)] + [Spawn] == done + UpToSpawn(line);
  }

  lemma RunToPublished(c: Context, done: seq<Action>, s: WorkerState) returns (t: WorkerState)
    requires Runs(c, done, s) && s.phase.Spawned? && |s.flushes| == 1
    ensures Runs(c, done + [Join] + [Publish], t)
    ensures t.phase == Published(s.phase.line, s.phase.elapsed) && t.queue == s.queue && t.flushes == s.flushes
    ensures t.history == s.history && t.dropped == s.dropped
  {
    hide BufferLine, BadLinesSeen, Runs;
    var s1 := Next(c, s, Join).value;
    OneMore(c, done, s, Join, s1);
    t := Next(c, s1, Publish).value;
    OneMore(c, done + [Join], s1, Publish, t);
  }

  lemma RunToIdle(c: Context, done: seq<Action>, s: WorkerState) returns (t: WorkerState)
    requires c.config.WellFormed() && Runs(c, done, s) && s.phase.Spawned? && |s.flushes| == 1
    ensures Runs(c, done + REST_OF_ROUND, t) && t.phase.Idle? && t.queue == s.queue && t.flushes == s.flushes
    ensures t.history == s.history.(current := [s.phase.line]) && t.dropped == s.dropped
  {
    hide BufferLine, BadLinesSeen, Runs;
    var s2 := RunToPublished(c, done, s);
    var s3 := Next(c, s2, Renew).value;
    OneMore(c, done + [Join] + [Publish], s2, Renew, s3);
    var s4 := Next(c, s3, ClearFlag).value;
    OneMore(c, done + [Join] + [Publish] + [Renew], s3, ClearFlag, s4);
    t := Next(c, s4, Buffer).value;
    OneMore(c, done + [Join] + [Publish] + [Renew] + [ClearFlag], s4, Buffer, t);
    assert done + [Join] + [Publish] + [Renew] + [ClearFlag] + [Buffer] == done + REST_OF_ROUND;
  }

  /** Two flushers, neither of which has got to the backends. */
  lemma TwoWaiting(c: Context, line: string) returns (s: WorkerState)
    requires c.config.WellFormed()
    ensures Exec(c, Initial(), UpToSpawn(line) + REST_OF_ROUND + UpToSpawn(line)) == Some(s)
    ensures |s.flushes| == 2 && s.flushes[0].status.Waiting? && s.flushes[1].status.Waiting?
  {
    hide Next, UpToSpawn;
    var s1 := RunToSpawn(c, [], Initial(), line);
    assert [] + UpToSpawn(line) == UpToSpawn(line);
    var s2 := RunToIdle(c, UpToSpawn(line), s1);
    s := RunToSpawn(c, UpToSpawn(line) + REST_OF_ROUND, s2, line);
    assert s.flushes[0] == s.flushes[..1][0];
  }
}
