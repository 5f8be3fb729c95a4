/**
 The proxy in front of the aggregators: several threads take lines from one queue, drop what the
 blacklist matches, and send each remaining line to the aggregator its name hashes to.
 */
module ProxyMachine {
  import opened Collections
  import opened LedgerMeaning
  import opened MetricLine
  import opened Routing
  import opened Text
  import opened WorkerMachine

  /** A blacklist entry is any predicate on lines; the original uses regular expressions. */
  datatype ProxySetup = ProxySetup(
    threads: nat,
    blacklist: seq<string -> bool>,
    toStdout: bool,
    destinations: nat,
    hash: StringHash)

  datatype Datagram = Datagram(destination: nat, line: string)

  datatype Fate = Blacklisted | Nowhere | NoName | SentTo(destination: nat)

  /**
   What a thread has in hand: nothing, a line it has just taken, or one that has passed the blacklist
   and been printed.
   */
  datatype Hand = Free | Taken(line: string) | Passed(line: string)

  /** `judged` and `handled` record the lines that have passed or failed the blacklist, and those done with. */
  datatype ProxyState = ProxyState(
    queue: seq<string>,
    dropped: nat,
    hands: seq<Hand>,
    sent: seq<Datagram>,
    printed: seq<string>,
    badLinesSeen: nat,
    submitted: seq<string>,
    accepted: seq<string>,
    judged: seq<string>,
    handled: seq<string>)

  datatype ProxyAction = Arrive(line: string) | Take(thread: nat) | Judge(thread: nat) | Route(thread: nat)

  function InitialProxy(u: ProxySetup): ProxyState {
    ProxyState([], 0, seq(u.threads, _ => Free), [], [], 0, [], [], [], [])
  }

  predicate Matched(blacklist: seq<string -> bool>, line: string) {
    exists i :: 0 <= i < |blacklist| && blacklist[i](line)
  }

  function FateOf(u: ProxySetup, line: string): Fate {
    if Matched(u.blacklist, line) then Blacklisted
    else if u.destinations == 0 then Nowhere
    else if ':' in line then SentTo(u.hash(RoutingPrefix(line)) % u.destinations)
    else NoName
  }

  /** A new line is copied as a C string to the end of the queue, or dropped if the queue is full. */
  function NextArrive(s: ProxyState, line: string): ProxyState {
    var metric := CStr(line);
    var t := s.(submitted := s.submitted + [metric]);
    if |s.queue| < QUEUE_CAPACITY
    then t.(queue := s.queue + [metric], accepted := s.accepted + [metric])
    else t.(dropped := s.dropped + 1)
  }

  /** A blacklisted line is done with; any other is printed, if that is configured. */
  function NextJudged(u: ProxySetup, s: ProxyState, line: string): ProxyState {
    if Matched(u.blacklist, line) then s.(judged := s.judged + [line], handled := s.handled + [line])
    else s.(judged := s.judged + [line], printed := if u.toStdout then s.printed + [line] else s.printed)
  }

  function HandAfterJudging(u: ProxySetup, line: string): Hand {
    if Matched(u.blacklist, line) then Free else Passed(line)
  }

  /** Then it is sent, or counted as bad, or dropped for want of a destination. */
  function NextRouted(u: ProxySetup, s: ProxyState, line: string): ProxyState {
    var fate := FateOf(u, line);
    s.(sent := if fate.SentTo? then s.sent + [Datagram(fate.destination, line)] else s.sent,
       badLinesSeen := s.badLinesSeen + if fate.NoName? then 1 else 0,
       handled := s.handled + [line])
  }

  function NextProxy(u: ProxySetup, s: ProxyState, a: ProxyAction): Option<ProxyState> {
    match a
    case Arrive(line) => Some(NextArrive(s, line))
    case Take(i) =>
      if i < |s.hands| && s.hands[i].Free? && s.queue != []
      then Some(s.(queue := s.queue[1..], hands := s.hands[i := Taken(s.queue[0])]))
      else None
    case Judge(i) =>
      if i < |s.hands| && s.hands[i].Taken?
      then Some(NextJudged(u, s, s.hands[i].line).(hands := s.hands[i := HandAfterJudging(u, s.hands[i].line)]))
      else None
    case Route(i) =>
      if i < |s.hands| && s.hands[i].Passed?
      then Some(NextRouted(u, s, s.hands[i].line).(hands := s.hands[i := Free]))
      else None
  }

  /** The state after a sequence of actions, if each could be taken in its turn. */
  function ExecProxy(u: ProxySetup, actions: seq<ProxyAction>): Option<ProxyState> {
    if actions == [] then Some(InitialProxy(u))
    else
      match ExecProxy(u, actions[..|actions| - 1])
      case None => None
      case Some(s) => NextProxy(u, s, actions[|actions| - 1])
  }

  ghost predicate ProxyReaches(u: ProxySetup, s: ProxyState) {
    exists actions :: ExecProxy(u, actions) == Some(s)
  }

  // ---------- what every step keeps ----------

  function Meets(u: ProxySetup, fate: Fate): string -> bool {
    line => FateOf(u, line) == fate
  }

  function Forwarded(u: ProxySetup): string -> bool {
    line => FateOf(u, line).SentTo?
  }

  function Kept(u: ProxySetup): string -> bool {
    line => !FateOf(u, line).Blacklisted?
  }

  function Addressed(u: ProxySetup): string -> Datagram {
    line => Datagram(if FateOf(u, line).SentTo? then FateOf(u, line).destination else 0, line)
  }

  ghost function LineIn(): Hand -> multiset<string> {
    (hand: Hand) => if hand.Free? then multiset{} else multiset{hand.line}
  }

  ghost function PassedIn(): Hand -> multiset<string> {
    (hand: Hand) => if hand.Passed? then multiset{hand.line} else multiset{}
  }

  /** What all threads have in hand together. */
  ghost function Held(hands: seq<Hand>, part: Hand -> multiset<string>): multiset<string> {
    if hands == [] then multiset{} else Held(hands[..|hands| - 1], part) + part(hands[|hands| - 1])
  }

  ghost predicate OutputMatches(u: ProxySetup, s: ProxyState) {
    && s.sent == Image(Filter(s.handled, Forwarded(u)), Addressed(u))
    && s.badLinesSeen == |Filter(s.handled, Meets(u, NoName))|
    && s.printed == if u.toStdout then Filter(s.judged, Kept(u)) else []
  }

  /** Every accepted line is done with, in hand or in the queue. */
  ghost predicate LinesAddUp(s: ProxyState) {
    multiset(s.accepted) == multiset(s.handled) + Held(s.hands, LineIn()) + multiset(s.queue)
  }

  ghost predicate QueueMatches(s: ProxyState) {
    && |s.submitted| == |s.accepted| + s.dropped
    && |s.queue| <= QUEUE_CAPACITY
    && (forall l :: l in s.accepted ==> l in s.submitted && '\0' !in l)
    && (s.dropped == 0 ==> s.accepted == s.submitted)
  }

  ghost predicate LinesMatch(s: ProxyState) {
    LinesAddUp(s) && QueueMatches(s)
  }

  /** The lines judged are those done with and those on their way out, none of which is blacklisted. */
  ghost predicate JudgedMatch(u: ProxySetup, s: ProxyState) {
    && multiset(s.judged) == multiset(s.handled) + Held(s.hands, PassedIn())
    && forall i :: 0 <= i < |s.hands| && s.hands[i].Passed? ==> !Matched(u.blacklist, s.hands[i].line)
  }

  function InHandOf(hand: Hand): seq<string> {
    if hand.Free? then [] else [hand.line]
  }

  /** A single thread handles the lines in the order the queue took them. */
  ghost predicate OneThreadInOrder(s: ProxyState) {
    |s.hands| == 1 ==>
      && s.accepted == s.handled + InHandOf(s.hands[0]) + s.queue
      && s.judged == s.handled + if s.hands[0].Passed? then [s.hands[0].line] else []
  }

  ghost predicate ProxyInv(u: ProxySetup, s: ProxyState) {
    |s.hands| == u.threads && OutputMatches(u, s) && LinesMatch(s) && JudgedMatch(u, s) && OneThreadInOrder(s)
  }

  lemma {:induction false} HeldUpdate(hands: seq<Hand>, i: nat, h: Hand, part: Hand -> multiset<string>)
    requires i < |hands|
    ensures Held(hands[i := h], part) + part(hands[i]) == Held(hands, part) + part(h)
  {
    var n := |hands| - 1;
    if i == n {
      assert hands[i := h][..n] == hands[..n];
    } else {
      assert hands[i := h][..n] == hands[..n][i := h];
      HeldUpdate(hands[..n], i, h, part);
      var before, after, last := Held(hands[..n], part), Held(hands[..n][i := h], part), part(hands[n]);
      assert after + last + part(hands[i]) == after + part(hands[i]) + last;
      assert before + last + part(h) == before + part(h) + last;
    }
  }

  /** A line that comes into, or goes out of, what the threads hold. */
  lemma HeldAfter(hands: seq<Hand>, i: nat, h: Hand, part: Hand -> multiset<string>)
    requires i < |hands|
    ensures part(hands[i]) == part(h) ==> Held(hands[i := h], part) == Held(hands, part)
    ensures part(hands[i]) == multiset{} ==> Held(hands[i := h], part) == Held(hands, part) + part(h)
    ensures part(h) == multiset{} ==> Held(hands, part) == Held(hands[i := h], part) + part(hands[i])
  {
    hide Held;
    HeldUpdate(hands, i, h, part);
    var before, after := Held(hands, part), Held(hands[i := h], part);
    assert before + multiset{} == before && after + multiset{} == after;
    if part(hands[i]) == part(h) {
      assert after == after + part(h) - part(h) && before == before + part(h) - part(h);
    }
  }

  lemma {:induction false} NothingHeld(hands: seq<Hand>)
    requires forall i :: 0 <= i < |hands| ==> hands[i].Free?
    ensures Held(hands, LineIn()) == multiset{} && Held(hands, PassedIn()) == multiset{}
  {
    if hands != [] {
      NothingHeld(hands[..|hands| - 1]);
    }
  }

  lemma InitialProxyInv(u: ProxySetup)
    ensures ProxyInv(u, InitialProxy(u))
  {
    NothingHeld(InitialProxy(u).hands);
  }

  lemma HandledOutput(u: ProxySetup, s: ProxyState, line: string)
    ensures var sent := Filter(s.handled, Forwarded(u));
            Filter(s.handled + [line], Forwarded(u)) == if FateOf(u, line).SentTo? then sent + [line] else sent
    ensures |Filter(s.handled + [line], Meets(u, NoName))|
         == |Filter(s.handled, Meets(u, NoName))| + if FateOf(u, line).NoName? then 1 else 0
  {
    hide FateOf, Filter;
    FilterSnoc(s.handled, line, Forwarded(u));
    FilterSnoc(s.handled, line, Meets(u, NoName));
  }

  lemma JudgedOutput(u: ProxySetup, s: ProxyState, line: string)
    requires OutputMatches(u, s)
    ensures OutputMatches(u, NextJudged(u, s, line))
  {
    hide Filter, Image, RoutingPrefix, Matched;
    HandledOutput(u, s, line);
    FilterSnoc(s.judged, line, Kept(u));
  }

  lemma RoutedOutput(u: ProxySetup, s: ProxyState, line: string)
    requires OutputMatches(u, s)
    ensures OutputMatches(u, NextRouted(u, s, line))
  {
    hide Filter, Image, FateOf;
    HandledOutput(u, s, line);
    ImageSnoc(Filter(s.handled, Forwarded(u)), line, Addressed(u));
  }

  lemma QueueOfStep(u: ProxySetup, s: ProxyState, a: ProxyAction)
    requires !a.Arrive? && QueueMatches(s) && NextProxy(u, s, a).Some?
    ensures QueueMatches(NextProxy(u, s, a).value)
  {
    hide FateOf, Matched;
  }

  lemma TakeKeepsLines(u: ProxySetup, s: ProxyState, i: nat)
    requires LinesAddUp(s) && JudgedMatch(u, s) && NextProxy(u, s, Take(i)).Some?
    ensures LinesAddUp(NextProxy(u, s, Take(i)).value) && JudgedMatch(u, NextProxy(u, s, Take(i)).value)
  {
    hide Held, Matched;
    var line, rest := s.queue[0], s.queue[1..];
    assert s.queue == [line] + rest;
    HeldAfter(s.hands, i, Taken(line), LineIn());
    HeldAfter(s.hands, i, Taken(line), PassedIn());
    assert multiset(s.handled) + Held(s.hands, LineIn()) + (multiset{line} + multiset(rest))
        == multiset(s.handled) + (Held(s.hands, LineIn()) + multiset{line}) + multiset(rest);
  }

  lemma JudgeKeepsHeld(u: ProxySetup, s: ProxyState, i: nat)
    requires LinesAddUp(s) && NextProxy(u, s, Judge(i)).Some?
    ensures LinesAddUp(NextProxy(u, s, Judge(i)).value)
  {
    hide Held, Matched;
    var line, hands := s.hands[i].line, s.hands;
    var after := HandAfterJudging(u, line);
    HeldAfter(hands, i, after, LineIn());
    if Matched(u.blacklist, line) {
      assert LineIn()(after) == multiset{} && LineIn()(hands[i]) == multiset{line};
      HandleHeld(s.handled, line, Held(hands[i := after], LineIn()), multiset(s.queue));
    } else {
      assert LineIn()(after) == LineIn()(hands[i]);
    }
  }

  lemma JudgeKeepsJudged(u: ProxySetup, s: ProxyState, i: nat)
    requires JudgedMatch(u, s) && NextProxy(u, s, Judge(i)).Some?
    ensures JudgedMatch(u, NextProxy(u, s, Judge(i)).value)
  {
    hide Held, Matched;
    var line := s.hands[i].line;
    var after := HandAfterJudging(u, line);
    HeldAfter(s.hands, i, after, PassedIn());
    HandlePassed(s.handled, s.judged, line, Held(s.hands, PassedIn()));
  }

  lemma RouteKeepsLines(u: ProxySetup, s: ProxyState, i: nat)
    requires LinesAddUp(s) && JudgedMatch(u, s) && NextProxy(u, s, Route(i)).Some?
    ensures LinesAddUp(NextProxy(u, s, Route(i)).value) && JudgedMatch(u, NextProxy(u, s, Route(i)).value)
  {
    hide Held, FateOf, Matched;
    var line := s.hands[i].line;
    HeldAfter(s.hands, i, Free, LineIn());
    HeldAfter(s.hands, i, Free, PassedIn());
    HandleHeld(s.handled, line, Held(s.hands[i := Free], LineIn()), multiset(s.queue));
    HandlePassed(s.handled, s.judged, line, Held(s.hands[i := Free], PassedIn()));
  }

  lemma HandleHeld(handled: seq<string>, line: string, held: multiset<string>, queue: multiset<string>)
    ensures multiset(handled + [line]) + held + queue == multiset(handled) + (held + multiset{line}) + queue
  {
  }

  lemma HandlePassed(handled: seq<string>, judged: seq<string>, line: string, passed: multiset<string>)
    ensures multiset(handled + [line]) + passed == multiset(handled) + (passed + multiset{line})
    ensures multiset(handled) + (passed + multiset{line}) == multiset(handled) + passed + multiset{line}
    ensures multiset(judged + [line]) == multiset(judged) + multiset{line}
  {
  }

  lemma TakeKeepsOrder(u: ProxySetup, s: ProxyState, i: nat)
    requires OneThreadInOrder(s) && NextProxy(u, s, Take(i)).Some?
    ensures OneThreadInOrder(NextProxy(u, s, Take(i)).value)
  {
    assert s.handled + [] + ([s.queue[0]] + s.queue[1..]) == s.handled + [s.queue[0]] + s.queue[1..];
    assert s.queue == [s.queue[0]] + s.queue[1..];
  }

  lemma HandleKeepsOrder(u: ProxySetup, s: ProxyState, a: ProxyAction)
    requires a.Judge? || a.Route?
    requires OneThreadInOrder(s) && NextProxy(u, s, a).Some?
    ensures OneThreadInOrder(NextProxy(u, s, a).value)
  {
    hide FateOf, Matched;
    var line := s.hands[a.thread].line;
    assert s.handled + [line] + s.queue == s.handled + [line] + [] + s.queue;
    assert s.handled + [] + [line] == s.handled + [line] && s.handled + [line] + [] == s.handled + [line];
  }

  lemma ArriveKeepsLines(u: ProxySetup, s: ProxyState, line: string)
    requires LinesMatch(s) && JudgedMatch(u, s)
    ensures LinesMatch(NextArrive(s, line)) && JudgedMatch(u, NextArrive(s, line))
  {
    hide Held, CStr;
    var metric := CStr(line);
    assert multiset(s.accepted + [metric]) == multiset(s.accepted) + multiset{metric};
    assert multiset(s.queue + [metric]) == multiset(s.queue) + multiset{metric};
  }

  lemma ArriveKeepsOrder(s: ProxyState, line: string)
    requires OneThreadInOrder(s)
    ensures OneThreadInOrder(NextArrive(s, line))
  {
    hide CStr;
    var metric := CStr(line);
    if |s.hands| == 1 {
      var hand := InHandOf(s.hands[0]);
      assert s.handled + hand + s.queue + [metric] == s.handled + hand + (s.queue + [metric]);
    }
  }

  lemma StepKeepsProxyInv(u: ProxySetup, s: ProxyState, a: ProxyAction)
    requires ProxyInv(u, s) && NextProxy(u, s, a).Some?
    ensures ProxyInv(u, NextProxy(u, s, a).value)
  {
    hide Held, FateOf, Matched, LinesMatch, JudgedMatch, OneThreadInOrder, OutputMatches;
    StepKeepsLines(u, s, a);
    StepKeepsOutput(u, s, a);
    match a {
      case Arrive(line) => ArriveKeepsOrder(s, line);
      case Take(i) => TakeKeepsOrder(u, s, i);
      case _ => HandleKeepsOrder(u, s, a);
    }
  }

  lemma StepKeepsLines(u: ProxySetup, s: ProxyState, a: ProxyAction)
    requires LinesMatch(s) && JudgedMatch(u, s) && NextProxy(u, s, a).Some?
    ensures LinesMatch(NextProxy(u, s, a).value) && JudgedMatch(u, NextProxy(u, s, a).value)
  {
    hide LinesAddUp, JudgedMatch, QueueMatches, FateOf, Matched;
    if a.Arrive? {
      ArriveKeepsLines(u, s, a.line);
    } else {
      QueueOfStep(u, s, a);
    }
    match a {
      case Arrive(_) =>
      case Take(i) => TakeKeepsLines(u, s, i);
      case Judge(i) =>
        JudgeKeepsHeld(u, s, i);
        JudgeKeepsJudged(u, s, i);
      case Route(i) => RouteKeepsLines(u, s, i);
    }
  }

  lemma StepKeepsOutput(u: ProxySetup, s: ProxyState, a: ProxyAction)
    requires OutputMatches(u, s) && NextProxy(u, s, a).Some?
    ensures OutputMatches(u, NextProxy(u, s, a).value)
  {
    hide Filter, Image, FateOf, Matched;
    match a {
      case Arrive(_) =>
      case Take(_) =>
      case Judge(i) => JudgedOutput(u, s, s.hands[i].line);
      case Route(i) => RoutedOutput(u, s, s.hands[i].line);
    }
  }

  lemma {:induction false} ProxyRunsKeepInv(u: ProxySetup, actions: seq<ProxyAction>)
    requires ExecProxy(u, actions).Some?
    ensures ProxyInv(u, ExecProxy(u, actions).value)
  {
    hide NextProxy, ProxyInv, InitialProxy;
    if actions == [] {
      InitialProxyInv(u);
    } else {
      var front := actions[..|actions| - 1];
      ProxyRunsKeepInv(u, front);
      StepKeepsProxyInv(u, ExecProxy(u, front).value, actions[|actions| - 1]);
    }
  }

  /** Every state the proxy can reach, whatever its threads do. */
  lemma ProxyReachesInv(u: ProxySetup, s: ProxyState)
    requires ProxyReaches(u, s)
    ensures ProxyInv(u, s)
  {
    hide ExecProxy, ProxyInv;
    var actions :| ExecProxy(u, actions) == Some(s);
    ProxyRunsKeepInv(u, actions);
  }
}
