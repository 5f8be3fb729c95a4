/**
 What a worker counts besides its ledger: the lines it has no room for, and the figures its status
 pages show.
 */
module WorkerFigures {
  import opened Collections
  import opened LedgerMeaning
  import opened LedgerModel
  import opened MetricLine
  import opened WorkerInvariants
  import opened WorkerMachine
  import opened WorkerTheorems

  // ---------- which lines are dropped ----------

  /** The lines that found fewer than 10000 waiting, and the number of those that did not. */
  ghost function Admitted(c: Context, actions: seq<Action>): seq<string>
    requires Exec(c, Initial(), actions).Some?
  {
    if actions == [] then []
    else
      var front, last := actions[..|actions| - 1], actions[|actions| - 1];
      if last.Submit? && |Exec(c, Initial(), front).value.queue| < 10000 then Admitted(c, front) + [last.text]
      else Admitted(c, front)
  }

  ghost function Refused(c: Context, actions: seq<Action>): nat
    requires Exec(c, Initial(), actions).Some?
  {
    if actions == [] then 0
    else
      var front, last := actions[..|actions| - 1], actions[|actions| - 1];
      if last.Submit? && |Exec(c, Initial(), front).value.queue| == 10000 then Refused(c, front) + 1
      else Refused(c, front)
  }

  lemma SubmissionOfStep(c: Context, s: WorkerState, a: Action, t: WorkerState)
    requires Step(c, s, a, t)
    ensures !a.Submit? ==> t.history.accepted == s.history.accepted && t.dropped == s.dropped
    ensures a.Submit? && |s.queue| < 10000 ==>
              t.history.accepted == s.history.accepted + [a.text] && t.dropped == s.dropped
    ensures a.Submit? && |s.queue| >= 10000 ==> t.history.accepted == s.history.accepted && t.dropped == s.dropped + 1
    ensures |s.queue| <= 10000 ==> |t.queue| <= 10000
  {
    hide ProcessBook, BufferLine, BadLinesSeen, Buffered, CopyBook;
  }

  /** In every run a line is dropped if and only if it comes when 10000 are waiting; the others are taken in order. */
  lemma {:induction false} DroppedIffFull(c: Context, actions: seq<Action>, s: WorkerState)
    requires Exec(c, Initial(), actions) == Some(s)
    ensures s.history.accepted == Admitted(c, actions) && s.dropped == Refused(c, actions) && |s.queue| <= 10000
  {
    hide Next;
    if actions != [] {
      var front, last := actions[..|actions| - 1], actions[|actions| - 1];
      var before := Exec(c, Initial(), front).value;
      DroppedIffFull(c, front, before);
      SubmissionOfStep(c, before, last, s);
    }
  }

  // ---------- what the status pages show ----------

  /** The number of segments whose figures have been published. */
  function Shown(s: WorkerState): int {
    if s.phase.Spawned? || s.phase.Joined? || s.phase.Published? then |s.history.segments| - 1
    else |s.history.segments|
  }

  ghost predicate RateMatches(c: Context, s: WorkerState)
    requires c.config.WellFormed()
  {
    && 0 <= Shown(s) <= |s.history.segments|
    && s.metricsRate == if Shown(s) == 0 then 0 else |s.history.segments[Shown(s) - 1]| / c.config.frequency
  }

  lemma KeepsRateMatches(c: Context, s: WorkerState, a: Action, t: WorkerState)
    requires c.config.WellFormed() && Step(c, s, a, t) && RateMatches(c, s)
    requires s.count == |s.history.current| && LastSegmentIsCurrent(s)
    ensures RateMatches(c, t)
  {
    hide ProcessBook, BufferLine, BadLinesSeen, Buffered, CopyBook;
  }

  lemma {:induction false} RateOfRun(c: Context, actions: seq<Action>, s: WorkerState)
    requires c.config.WellFormed() && Exec(c, Initial(), actions) == Some(s)
    ensures RateMatches(c, s)
  {
    hide Next, RateMatches, FlushesMatch, InOrder, FlushersJoined, InterruptsCover, SegmentsNotEmpty, PublishedMatches,
      SubmissionsCounted, LastSegmentIsCurrent, BookOf, Buffered, ProcessBook;
    if actions == [] {
      NoRateYet(c);
    } else {
      var front, last := actions[..|actions| - 1], actions[|actions| - 1];
      var before := Exec(c, Initial(), front).value;
      RateOfRun(c, front, before);
      ReachableInv(c, before);
      KeepsRateMatches(c, before, last, s);
    }
  }

  lemma NoRateYet(c: Context)
    requires c.config.WellFormed()
    ensures RateMatches(c, Initial())
  {
  }

  /**
   Between two flushes the status pages show the last flushed ledger: lines a second, lines by name,
   and the bad ones.
   */
  lemma StatusShown(c: Context, s: WorkerState, name: string)
    requires c.config.WellFormed() && Reachable(c, s) && s.flushes != []
    requires !s.phase.Spawned? && !s.phase.Joined? && !s.phase.Published?
    ensures |s.history.segments| == |s.flushes|
    ensures var last := s.history.segments[|s.flushes| - 1];
            && s.metricsRate == |last| / c.config.frequency
            && Get(s.frequency, name, 0) == |Filter(last, NamedBy(name))|
            && (Filter(last, FedBy(Counter, c.config.name + ".bad_lines_seen")) == [] ==>
                  s.badLinesSeen == |Filter(last, IsBad())|)
  {
    hide FlushesMatch, LedgerMatches, InOrder, FlushersJoined, InterruptsCover, SubmissionsCounted,
      SegmentsNotEmpty, LastSegmentIsCurrent, BookOf, Buffered, ProcessBook, BadLinesSeen, Filter, Next, Exec, FedBy,
      NamedBy, IsBad, Reachable;
    assert c.config.BadLinesKey() == c.config.name + ".bad_lines_seen";
    ReachableInv(c, s);
    RateReached(c, s);
    LastShown(c.config.BadLinesKey(), s.history.segments[|s.flushes| - 1], name);
  }

  lemma RateReached(c: Context, s: WorkerState)
    requires c.config.WellFormed() && Reachable(c, s)
    ensures RateMatches(c, s)
  {
    hide Next, RateMatches;
    var actions :| Exec(c, Initial(), actions) == Some(s);
    RateOfRun(c, actions, s);
  }

  lemma LastShown(badLinesKey: string, last: seq<string>, name: string)
    ensures Get(BookOf(badLinesKey, last).frequency, name, 0) == |Filter(last, NamedBy(name))|
    ensures Filter(last, FedBy(Counter, badLinesKey)) == [] ==>
              BadLinesSeen(BookOf(badLinesKey, last), badLinesKey) == |Filter(last, IsBad())|
  {
    hide BookOf, FedBy, Filter, BadLinesSeen, NamedBy, IsBad;
    FrequenciesMean(badLinesKey, last, name);
    if Filter(last, FedBy(Counter, badLinesKey)) == [] {
      BadLinesCounted(badLinesKey, last);
    }
  }
}
