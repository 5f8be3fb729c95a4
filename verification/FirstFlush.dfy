/**
 Which runs of a worker flush an empty ledger first: those in which an interrupt comes before the
 worker tests its flag for the first time.
 */
module FirstFlush {
  import opened Collections
  import opened LedgerModel
  import opened WorkerMachine
  import opened WorkerInvariants
  import opened WorkerRuns
  import opened WorkerTheorems

  /** An interrupt precedes the first test of the flag. */
  ghost predicate InterruptedFirst(actions: seq<Action>) {
    exists i :: 0 <= i < |actions| && actions[i].Interrupt? && Untested(actions[..i])
  }

  ghost predicate Untested(actions: seq<Action>) {
    forall i :: 0 <= i < |actions| ==> !actions[i].TestFlag?
  }

  lemma InterruptedFirstStep(front: seq<Action>, last: Action)
    ensures Untested(front + [last]) <==> Untested(front) && !last.TestFlag?
    ensures InterruptedFirst(front + [last]) <==> InterruptedFirst(front) || (Untested(front) && last.Interrupt?)
  {
    var actions := front + [last];
    forall i | 0 <= i <= |front|
      ensures actions[..i] == front[..i]
    {
    }
    assert front[..|front|] == front && actions[|front|] == last;
    if Untested(actions) {
      forall i | 0 <= i < |front|
        ensures !front[i].TestFlag?
      {
        assert actions[i] == front[i];
      }
    }
    if i :| 0 <= i < |front| && front[i].Interrupt? && Untested(front[..i]) {
      assert actions[i].Interrupt? && Untested(actions[..i]);
    }
    if Untested(front) && last.Interrupt? {
      assert actions[|front|].Interrupt? && Untested(actions[..|front|]);
    }
  }

  /** How far a worker has got with its first flush. */
  ghost predicate Opening(s: WorkerState, untested: bool, interrupted: bool) {
    if untested then
      && (s.phase.Idle? || s.phase.Popped?) && s.history.segments == [] && s.history.current == []
      && (s.flag <==> interrupted)
    else if s.history.segments != [] then s.history.segments[0] == [] <==> interrupted
    else if interrupted then (s.phase.MustFlush? || s.phase.Processed?) && s.history.current == []
    else BeforeSpawn(s.phase) && (s.history.current == [] ==> s.phase.MustBuffer?)
  }

  lemma OpeningStep(c: Context, s: WorkerState, a: Action, t: WorkerState, untested: bool, interrupted: bool)
    requires Step(c, s, a, t) && Opening(s, untested, interrupted) && |s.history.segments| == |s.flushes|
    ensures Opening(t, untested && !a.TestFlag?, interrupted || (untested && a.Interrupt?))
  {
    hide ProcessBook, BufferLine, BadLinesSeen, Buffered, CopyBook;
  }

  lemma {:induction false} OpeningOf(c: Context, actions: seq<Action>, s: WorkerState)
    requires c.config.WellFormed() && Exec(c, Initial(), actions) == Some(s)
    ensures Opening(s, Untested(actions), InterruptedFirst(actions))
  {
    hide Next, Opening, Inv, InterruptedFirst, Untested;
    if actions == [] {
      NothingYet();
    } else {
      var front, last := actions[..|actions| - 1], actions[|actions| - 1];
      var before := Exec(c, Initial(), front).value;
      OpeningOf(c, front, before);
      assert actions == front + [last];
      InterruptedFirstStep(front, last);
      SegmentsAreFlushes(c, front, before);
      OpeningStep(c, before, last, s, Untested(front), InterruptedFirst(front));
    }
  }

  lemma NothingYet()
    ensures Untested([]) && !InterruptedFirst([]) && Opening(Initial(), true, false)
  {
  }

  lemma SegmentsAreFlushes(c: Context, actions: seq<Action>, s: WorkerState)
    requires c.config.WellFormed() && Exec(c, Initial(), actions) == Some(s)
    ensures |s.history.segments| == |s.flushes|
  {
    hide LedgerMatches, InOrder, FlushersJoined, InterruptsCover, PublishedMatches, LastSegmentIsCurrent,
      SubmissionsCounted, SegmentsNotEmpty, Next;
    ReachableInv(c, s);
  }

  /** A worker's first flush is empty exactly when it was interrupted before it first tested its flag. */
  lemma FirstFlushEmptyIff(c: Context, actions: seq<Action>, s: WorkerState)
    requires c.config.WellFormed() && Exec(c, Initial(), actions) == Some(s) && s.flushes != []
    ensures LinesIn(s.flushes[0].ledger) == 0 <==> InterruptedFirst(actions)
  {
    hide Next, InterruptedFirst, Untested, LinesIn, LedgerMatches, InOrder, FlushersJoined, InterruptsCover,
      PublishedMatches, LastSegmentIsCurrent, SubmissionsCounted, SegmentsNotEmpty, Snapshot, Buffered;
    OpeningOf(c, actions, s);
    ReachableInv(c, s);
    SnapshotLines(c, s.history.segments[0], s.flushes[0].elapsed);
  }

  /** There are such runs. */
  lemma FirstFlushCanBeEmpty(c: Context) returns (actions: seq<Action>, s: WorkerState)
    requires c.config.WellFormed()
    ensures Exec(c, Initial(), actions) == Some(s) && |s.flushes| == 1 && LinesIn(s.flushes[0].ledger) == 0
  {
    actions := UpToSpawn("");
    s := RunToSpawn(c, [], Initial(), "");
    assert [] + actions == actions;
    assert actions[1].Interrupt? && Untested(actions[..1]);
    assert InterruptedFirst(actions);
    hide Next, LinesIn, InterruptedFirst, UpToSpawn;
    FirstFlushEmptyIff(c, actions, s);
  }
}
