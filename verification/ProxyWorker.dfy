/**
 The proxy worker and its consumer as the program has them. A thread's loop keeps the line it is
 working on in a local variable; everything else is shared between the threads.
 */
module ProxyObjects {
  import opened Collections
  import opened ProxyMachine
  import opened Text
  import opened WorkerMachine

  class ProxyWorker {
    const setup: ProxySetup
    var workQueue: seq<string>
    var metricsDropped: nat
    var badLinesSeen: nat
    /** What has gone to the socket and to standard output, in order. */
    var sent: seq<Datagram>
    var printed: seq<string>
    ghost var submitted: seq<string>
    ghost var accepted: seq<string>
    ghost var judged: seq<string>
    ghost var handled: seq<string>

    /** The shared state, with the lines the threads have in hand. */
    ghost function View(hands: seq<Hand>): ProxyState
      reads this
    {
      ProxyState(workQueue, metricsDropped, hands, sent, printed, badLinesSeen, submitted, accepted, judged, handled)
    }

    constructor (setup: ProxySetup)
      ensures this.setup == setup && View(InitialProxy(setup).hands) == InitialProxy(setup)
    {
      this.setup := setup;
      workQueue, metricsDropped, badLinesSeen, sent, printed := [], 0, 0, [], [];
      submitted, accepted, judged, handled := [], [], [], [];
    }

    /** The consumer's copy of the line, handed to `Submit`. */
    method Consume(line: string, ghost hands: seq<Hand>)
      modifies this`workQueue, this`metricsDropped, this`submitted, this`accepted
      ensures NextProxy(setup, old(View(hands)), Arrive(line)) == Some(View(hands))
    {
      Submit(CStr(line), hands);
    }

    method Submit(metric: string, ghost hands: seq<Hand>)
      requires '\0' !in metric
      modifies this`workQueue, this`metricsDropped, this`submitted, this`accepted
      ensures View(hands) == NextArrive(old(View(hands)), metric)
    {
      submitted := submitted + [metric];
      if |workQueue| < QUEUE_CAPACITY {
        workQueue := workQueue + [metric];
        accepted := accepted + [metric];
      } else {
        metricsDropped := metricsDropped + 1;
      }
    }

    /** Takes the oldest line off the queue, if there is one; an empty queue changes nothing. */
    method TakeLine(thread: nat, ghost hands: seq<Hand>) returns (metric: Option<string>)
      requires thread < |hands| && hands[thread].Free?
      modifies this`workQueue
      ensures metric.None? <==> old(workQueue) == []
      ensures metric.None? ==> workQueue == []
      ensures metric.Some? ==>
                && workQueue == old(workQueue)[1..]
                && NextProxy(setup, old(View(hands)), Take(thread)) == Some(View(hands[thread := Taken(metric.value)]))
    {
      if workQueue == [] {
        return None;
      }
      metric := Some(workQueue[0]);
      workQueue := workQueue[1..];
    }

    /** The blacklist scan, and the copy to standard output of a line that passes it. */
    method JudgeLine(thread: nat, metric: string, ghost hands: seq<Hand>) returns (drop: bool)
      requires thread < |hands| && hands[thread] == Taken(metric)
      modifies this`printed, this`judged, this`handled
      ensures drop <==> Matched(setup.blacklist, metric)
      ensures NextProxy(setup, old(View(hands)), Judge(thread))
           == Some(View(hands[thread := if drop then Free else Passed(metric)]))
    {
      judged := judged + [metric];
      drop := false;
      var i := 0;
      while i < |setup.blacklist| && !drop
        invariant 0 <= i <= |setup.blacklist|
        invariant drop ==> Matched(setup.blacklist, metric)
        invariant !drop ==> forall j :: 0 <= j < i ==> !setup.blacklist[j](metric)
        decreases |setup.blacklist| - i, !drop
      {
        if setup.blacklist[i](metric) {
          drop := true;
        } else {
          i := i + 1;
        }
      }
      if drop {
        handled := handled + [metric];
      } else if setup.toStdout {
        printed := printed + [metric];
      }
    }

    /** Off to the aggregator its name hashes to, unless it has no name or there is no aggregator. */
    method RouteLine(thread: nat, metric: string, ghost hands: seq<Hand>)
      requires thread < |hands| && hands[thread] == Passed(metric) && !Matched(setup.blacklist, metric)
      modifies this`sent, this`badLinesSeen, this`handled
      ensures NextProxy(setup, old(View(hands)), Route(thread)) == Some(View(hands[thread := Free]))
    {
      hide Matched;
      handled := handled + [metric];
      if setup.destinations == 0 {
        return;
      }

      var pos := IndexOf(metric, ':');
      if pos != -1 {
        var idx := setup.hash(metric[..pos]) % setup.destinations;
        sent := sent + [Datagram(idx, metric)];
      } else {
        badLinesSeen := badLinesSeen + 1;
      }
    }

    /** One turn of the loop; on an empty queue the original sleeps and tries again. */
    method Turn(thread: nat, ghost hands: seq<Hand>)
      requires thread < |hands| && hands[thread].Free?
      modifies this
      ensures View(hands) == AfterTurn(setup, old(View(hands)), thread)
    {
      hide NextProxy;
      EmptyTurn(setup, View(hands), thread);
      var metric := TakeLine(thread, hands);
      match metric {
        case None =>
        case Some(line) =>
          ghost var taken := hands[thread := Taken(line)];
          ghost var start, s1 := old(View(hands)), View(taken);
          var drop := JudgeLine(thread, line, taken);
          ghost var passed := taken[thread := if drop then Free else Passed(line)];
          ghost var s2 := View(passed);
          if !drop {
            RouteLine(thread, line, passed);
          }
          assert passed[thread := Free] == hands;
          FullTurn(setup, start, thread, s1, s2, View(hands));
      }
    }

    /** The loop of a thread, stopped after any number of turns, while the others stand still. */
    method Run(thread: nat, turns: nat, ghost hands: seq<Hand>)
      requires thread < |hands| && hands[thread].Free?
      modifies this
      ensures View(hands) == AfterTurns(setup, old(View(hands)), thread, turns)
    {
      hide AfterTurn;
      for n := 0 to turns
        invariant View(hands) == AfterTurns(setup, old(View(hands)), thread, n)
      {
        Turn(thread, hands);
      }
    }
  }

  /** A thread taking a line off the queue, if there is one, and seeing it through. */
  function AfterTurn(u: ProxySetup, s: ProxyState, thread: nat): ProxyState {
    match NextProxy(u, s, Take(thread))
    case None => s
    case Some(r) =>
      match NextProxy(u, r, Judge(thread))
      case None => r
      case Some(t) =>
        match NextProxy(u, t, Route(thread))
        case None => t
        case Some(e) => e
  }

  function AfterTurns(u: ProxySetup, s: ProxyState, thread: nat, n: nat): ProxyState {
    if n == 0 then s else AfterTurn(u, AfterTurns(u, s, thread, n - 1), thread)
  }

  lemma EmptyTurn(u: ProxySetup, s: ProxyState, thread: nat)
    ensures s.queue == [] ==> AfterTurn(u, s, thread) == s
  {
  }

  lemma FullTurn(u: ProxySetup, s: ProxyState, thread: nat, s1: ProxyState, s2: ProxyState, s3: ProxyState)
    requires NextProxy(u, s, Take(thread)) == Some(s1) && NextProxy(u, s1, Judge(thread)) == Some(s2)
    requires thread < |s2.hands|
    requires if s2.hands[thread].Passed? then NextProxy(u, s2, Route(thread)) == Some(s3) else s3 == s2
    ensures AfterTurn(u, s, thread) == s3
  {
    if !s2.hands[thread].Passed? {
      assert NextProxy(u, s2, Route(thread)) == None;
    }
  }
}
