/**
 What can still happen from a state the aggregator has reached: when a newer flush can get to the
 backends before the older one of its worker, and that no worker waits for a flusher in vain.
 */
module Overtaking {
  import opened Collections
  import opened Pipeline
  import opened PipelineInvariants
  import opened PipelineTheorems
  import opened Routing
  import opened WorkerMachine
  import opened WorkerRuns

  // ---------- continuing a run ----------

  ghost function Continue(u: Setup, y: System, labels: seq<Label>): Option<System>
    requires Fits(u)
  {
    if labels == [] then Some(y)
    else
      match Continue(u, y, labels[..|labels| - 1])
      case None => None
      case Some(z) => NextSystem(u, z, labels[|labels| - 1])
  }

  ghost predicate LeadsTo(u: Setup, y: System, z: System)
    requires Fits(u)
  {
    exists labels :: Continue(u, y, labels) == Some(z)
  }

  lemma StaysPut(u: Setup, y: System)
    requires Fits(u)
    ensures LeadsTo(u, y, y)
  {
    assert Continue(u, y, []) == Some(y);
  }

  lemma OneFurther(u: Setup, x: System, y: System, l: Label, z: System)
    requires Fits(u) && LeadsTo(u, x, y) && NextSystem(u, y, l) == Some(z)
    ensures LeadsTo(u, x, z)
  {
    hide NextSystem;
    var labels :| Continue(u, x, labels) == Some(y);
    assert (labels + [l])[..|labels|] == labels;
    assert Continue(u, x, labels + [l]) == Some(z);
  }

  lemma ReachesMore(u: Setup, y: System, l: Label, z: System)
    requires Fits(u) && RunReaches(u, y) && NextSystem(u, y, l) == Some(z)
    ensures RunReaches(u, z)
  {
    hide NextSystem;
    var systems, labels :| IsRun(u, systems, labels) && systems[|labels|] == y;
    assert IsRun(u, systems + [z], labels + [l]);
  }

  lemma {:induction false} ReachesFurther(u: Setup, y: System, labels: seq<Label>, z: System)
    requires Fits(u) && RunReaches(u, y) && Continue(u, y, labels) == Some(z)
    ensures RunReaches(u, z)
  {
    hide NextSystem, RunReaches;
    if labels != [] {
      var front := labels[..|labels| - 1];
      ReachesFurther(u, y, front, Continue(u, y, front).value);
      ReachesMore(u, Continue(u, y, front).value, labels[|labels| - 1], z);
    }
  }

  lemma LeadsToReached(u: Setup, y: System, z: System)
    requires Fits(u) && RunReaches(u, y) && LeadsTo(u, y, z)
    ensures RunReaches(u, z)
  {
    hide RunReaches, Continue;
    var labels :| Continue(u, y, labels) == Some(z);
    ReachesFurther(u, y, labels, z);
  }

  // ---------- the status of a flush ----------

  ghost predicate Exists(y: System, id: FlushId) {
    id.worker < |y.workers| && id.flush < |y.workers[id.worker].flushes|
  }

  ghost predicate IsWaiting(y: System, id: FlushId) {
    Exists(y, id) && y.workers[id.worker].flushes[id.flush].status.Waiting?
  }

  lemma WaitsNoMoreStep(u: Setup, y: System, l: Label, z: System, id: FlushId)
    requires Fits(u) && NextSystem(u, y, l) == Some(z) && Exists(y, id) && !IsWaiting(y, id)
    ensures Exists(z, id) && !IsWaiting(z, id)
  {
    hide NextSystem;
    SystemStepMoves(u, y, l, z);
    var w := MovedWorker(u, l);
    hide Next;
    if w == id.worker {
      FlushesOfStep(u.context, y.workers[w], ActionOf(u, l), z.workers[w]);
      StatusOfStep(u.context, y.workers[w], ActionOf(u, l), z.workers[w], id.flush);
    }
  }

  lemma {:induction false} WaitsNoMore(u: Setup, y: System, labels: seq<Label>, z: System, id: FlushId)
    requires Fits(u) && Continue(u, y, labels) == Some(z) && Exists(y, id) && !IsWaiting(y, id)
    ensures Exists(z, id) && !IsWaiting(z, id)
  {
    hide NextSystem, Exists, IsWaiting;
    if labels != [] {
      var front := labels[..|labels| - 1];
      WaitsNoMore(u, y, front, Continue(u, y, front).value, id);
      WaitsNoMoreStep(u, Continue(u, y, front).value, labels[|labels| - 1], z, id);
    }
  }

  // ---------- letting a flush through ----------

  /** The two systems differ at most in the status of one flush, the lock and the log. */
  ghost predicate SameButFor(y: System, z: System, id: FlushId) {
    && |z.workers| == |y.workers|
    && forall w :: 0 <= w < |y.workers| ==>
         && z.workers[w].phase == y.workers[w].phase
         && |z.workers[w].flushes| == |y.workers[w].flushes|
         && forall i :: 0 <= i < |y.workers[w].flushes| && FlushId(w, i) != id ==>
              z.workers[w].flushes[i].status == y.workers[w].flushes[i].status
  }

  lemma HolderInside(u: Setup, y: System, id: FlushId)
    requires Fits(u) && RunReaches(u, y) && y.lock == Some(id)
    ensures Exists(y, id) && y.workers[id.worker].flushes[id.flush].status.Inside?
    ensures y.workers[id.worker].flushes[id.flush].status.delivered <= u.context.backends
  {
    hide LogMatches, FinishedMatches, FinishedInWindow, SubmissionsMatch, FlushesMatch, LedgerMatches, InOrder,
      InterruptsCover, SegmentsNotEmpty, PublishedMatches, LastSegmentIsCurrent, SubmissionsCounted, RunReaches;
    RunReachesInv(u, y);
    assert IsInside(y, id);
  }

  lemma SendOne(u: Setup, y: System, id: FlushId) returns (z: System)
    requires Fits(u) && Exists(y, id) && y.lock == Some(id)
    requires y.workers[id.worker].flushes[id.flush].status.Inside?
    requires y.workers[id.worker].flushes[id.flush].status.delivered < u.context.backends
    ensures NextSystem(u, y, Send(id)) == Some(z) && z.lock == Some(id) && SameButFor(y, z, id)
    ensures z.workers[id.worker].flushes[id.flush].status
         == Inside(y.workers[id.worker].flushes[id.flush].status.delivered + 1)
  {
    z := NextSystem(u, y, Send(id)).value;
  }

  lemma LeaveOne(u: Setup, y: System, id: FlushId) returns (z: System)
    requires Fits(u) && Exists(y, id) && y.lock == Some(id)
    requires y.workers[id.worker].flushes[id.flush].status == Inside(u.context.backends)
    ensures NextSystem(u, y, Leave(id)) == Some(z) && z.lock == None && SameButFor(y, z, id)
    ensures z.workers[id.worker].flushes[id.flush].status.Done?
  {
    z := NextSystem(u, y, Leave(id)).value;
  }

  lemma EnterOne(u: Setup, y: System, id: FlushId) returns (z: System)
    requires Fits(u) && y.lock == None && IsWaiting(y, id)
    ensures NextSystem(u, y, Enter(id)) == Some(z) && z.lock == Some(id) && SameButFor(y, z, id)
    ensures z.workers[id.worker].flushes[id.flush].status == Inside(0)
  {
    z := NextSystem(u, y, Enter(id)).value;
  }

  /** The holder of the lock can deliver to the backends that are left, and go. */
  lemma {:induction false} HolderLeaves(u: Setup, x: System, y: System, id: FlushId) returns (z: System)
    requires Fits(u) && LeadsTo(u, x, y) && Exists(y, id) && y.lock == Some(id)
    requires y.workers[id.worker].flushes[id.flush].status.Inside?
    requires y.workers[id.worker].flushes[id.flush].status.delivered <= u.context.backends
    ensures LeadsTo(u, x, z) && z.lock == None && SameButFor(y, z, id)
    ensures z.workers[id.worker].flushes[id.flush].status.Done?
    decreases u.context.backends - y.workers[id.worker].flushes[id.flush].status.delivered
  {
    hide NextSystem, LeadsTo;
    if y.workers[id.worker].flushes[id.flush].status.delivered < u.context.backends {
      var y' := SendOne(u, y, id);
      OneFurther(u, x, y, Send(id), y');
      z := HolderLeaves(u, x, y', id);
    } else {
      z := LeaveOne(u, y, id);
      OneFurther(u, x, y, Leave(id), z);
    }
  }

  /** From every state the lock can become free, without a waiting flush having moved. */
  lemma LockComesFree(u: Setup, y: System) returns (z: System)
    requires Fits(u) && RunReaches(u, y)
    ensures LeadsTo(u, y, z) && RunReaches(u, z) && z.lock == None && |z.workers| == |y.workers|
    ensures match y.lock
            case None => z == y
            case Some(id) =>
              && SameButFor(y, z, id) && Exists(y, id) && z.workers[id.worker].flushes[id.flush].status.Done?
              && y.workers[id.worker].flushes[id.flush].status.Inside?
  {
    hide RunReaches, LeadsTo;
    StaysPut(u, y);
    match y.lock {
      case None => z := y;
      case Some(id) =>
        HolderInside(u, y, id);
        z := HolderLeaves(u, y, y, id);
        LeadsToReached(u, y, z);
    }
  }

  // ---------- overtaking ----------

  /** The newer flush of a worker has got to the backends while the older one still waits. */
  ghost predicate Overtaken(y: System, w: nat, i: nat) {
    IsWaiting(y, FlushId(w, i)) && Exists(y, FlushId(w, i + 1)) && !IsWaiting(y, FlushId(w, i + 1))
  }

  /**
   Once flush i + 1 has been started, it can get to the backends before flush i if and only if flush i
   is still waiting for the lock.
   */
  lemma OvertakenIffWaiting(u: Setup, y: System, w: nat, i: nat)
    requires Fits(u) && RunReaches(u, y) && Exists(y, FlushId(w, i + 1))
    ensures IsWaiting(y, FlushId(w, i)) <==> exists z :: LeadsTo(u, y, z) && Overtaken(z, w, i)
  {
    hide RunReaches, LeadsTo;
    var older, newer := FlushId(w, i), FlushId(w, i + 1);
    if IsWaiting(y, older) {
      var z := Overtake(u, y, w, i);
    } else if z :| LeadsTo(u, y, z) && Overtaken(z, w, i) {
      StillWaiting(u, y, z, older);
    }
  }

  lemma StillWaiting(u: Setup, y: System, z: System, id: FlushId)
    requires Fits(u) && LeadsTo(u, y, z) && Exists(y, id) && IsWaiting(z, id)
    ensures IsWaiting(y, id)
  {
    hide Continue, Exists, IsWaiting;
    var labels :| Continue(u, y, labels) == Some(z);
    if !IsWaiting(y, id) {
      WaitsNoMore(u, y, labels, z, id);
    }
  }

  lemma Overtake(u: Setup, y: System, w: nat, i: nat) returns (z: System)
    requires Fits(u) && RunReaches(u, y) && Exists(y, FlushId(w, i + 1)) && IsWaiting(y, FlushId(w, i))
    ensures LeadsTo(u, y, z) && RunReaches(u, z) && Overtaken(z, w, i)
  {
    hide RunReaches, LeadsTo;
    var newer := FlushId(w, i + 1);
    if IsWaiting(y, newer) {
      var free := LockComesFree(u, y);
      z := EnterOne(u, free, newer);
      OneFurther(u, y, free, Enter(newer), z);
      LeadsToReached(u, y, z);
    } else {
      StaysPut(u, y);
      z := y;
    }
  }

  /** A worker's own steps, and arrivals of lines that reach its queue as they are. */
  ghost predicate FedOnly(u: Setup, w: nat, actions: seq<Action>)
    requires Fits(u)
  {
    forall i :: 0 <= i < |actions| ==> OwnStep(actions[i]) || (actions[i].Submit? && Plain(u, w, actions[i].text))
  }

  ghost predicate Plain(u: Setup, w: nat, line: string)
    requires Fits(u)
  {
    WorkerFor(u.context.config, u.hash)(line) == w && Enqueued(u.context.config)(line) == line
  }

  /** What a worker can do alone it can do in the aggregator, at any time before any flusher moves. */
  lemma {:induction false} Lift(u: Setup, w: nat, actions: seq<Action>, s: WorkerState) returns (z: System)
    requires Fits(u) && w < u.context.config.workers
    requires FedOnly(u, w, actions) && Exec(u.context, Initial(), actions) == Some(s)
    ensures RunReaches(u, z) && |z.workers| == u.context.config.workers && z.workers[w] == s
    ensures z.consumed == s.history.submitted
    ensures forall v :: 0 <= v < |z.workers| && v != w ==> z.workers[v] == Initial()
  {
    hide Next, RunReaches, Plain;
    if actions == [] {
      z := InitialSystem(u);
      StartReached(u);
    } else {
      var front, last := actions[..|actions| - 1], actions[|actions| - 1];
      var y := Lift(u, w, front, Exec(u.context, Initial(), front).value);
      z := LiftStep(u, y, w, last, s);
      ReachesMore(u, y, if last.Submit? then Consume(last.text) else Work(w, last), z);
    }
  }

  lemma StartReached(u: Setup)
    requires Fits(u)
    ensures RunReaches(u, InitialSystem(u))
  {
    assert IsRun(u, [InitialSystem(u)], []);
  }

  lemma LiftStep(u: Setup, y: System, w: nat, a: Action, s: WorkerState) returns (z: System)
    requires Fits(u) && w < |y.workers| && y.consumed == y.workers[w].history.submitted
    requires OwnStep(a) || (a.Submit? && Plain(u, w, a.text))
    requires Next(u.context, y.workers[w], a) == Some(s)
    ensures NextSystem(u, y, if a.Submit? then Consume(a.text) else Work(w, a)) == Some(z)
    ensures z.workers == y.workers[w := s] && z.consumed == s.history.submitted
  {
    SubmittedByStep(u.context, y.workers[w], a, s);
    hide Next, Enqueued, WorkerFor;
    z := NextSystem(u, y, if a.Submit? then Consume(a.text) else Work(w, a)).value;
  }

  /** And it does happen: in some run the second flush of a worker enters while its first waits. */
  lemma NewerFlushCanOvertake(u: Setup) returns (y: System, w: nat, z: System)
    requires Fits(u)
    ensures RunReaches(u, y) && IsWaiting(y, FlushId(w, 0)) && IsWaiting(y, FlushId(w, 1))
    ensures LeadsTo(u, y, z) && RunReaches(u, z) && Overtaken(z, w, 0)
  {
    var line := ":";
    w := WorkerFor(u.context.config, u.hash)(line);
    assert Plain(u, w, line);
    hide RunReaches, LeadsTo, Next, Plain, Overtaken;
    var actions := UpToSpawn(line) + REST_OF_ROUND + UpToSpawn(line);
    var s := TwoWaiting(u.context, line);
    y := Lift(u, w, actions, s);
    z := Overtake(u, y, w, 0);
  }

  // ---------- nobody waits in vain ----------

  /** A worker that waits for its old flusher can be released, whoever has the lock now. */
  lemma SpawnedCanJoin(u: Setup, y: System, w: nat) returns (z: System)
    requires Fits(u) && RunReaches(u, y) && w < |y.workers| && y.workers[w].phase.Spawned?
    ensures LeadsTo(u, y, z) && w < |z.workers| && z.workers[w].phase == y.workers[w].phase && CanJoin(z.workers[w])
  {
    hide RunReaches, LeadsTo, NextSystem;
    var free := LockComesFree(u, y);
    var n := |y.workers[w].flushes|;
    assert n == |free.workers[w].flushes| && free.workers[w].phase == y.workers[w].phase;
    if n < 2 || free.workers[w].flushes[n - 2].status.Done? {
      z := free;
    } else {
      var older := FlushId(w, n - 2);
      FreeMeansNotInside(u, free, older);
      var inside := EnterOne(u, free, older);
      OneFurther(u, y, free, Enter(older), inside);
      z := HolderLeaves(u, y, inside, older);
    }
  }

  lemma FreeMeansNotInside(u: Setup, y: System, id: FlushId)
    requires Fits(u) && RunReaches(u, y) && y.lock == None && Exists(y, id)
    ensures !y.workers[id.worker].flushes[id.flush].status.Inside?
  {
    hide LogMatches, FinishedMatches, FinishedInWindow, SubmissionsMatch, WorkersFine, RunReaches;
    RunReachesInv(u, y);
    assert !IsInside(y, id);
  }
}
