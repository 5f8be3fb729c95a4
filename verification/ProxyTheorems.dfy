/**
 What the proxy and the aggregators behind it do together, whatever their threads do.
 */
module ProxyTheorems {
  import opened Collections
  import opened GaugeOrder
  import opened LedgerModel
  import opened LedgerMeaning
  import opened MetricLine
  import opened ProxyMachine
  import opened Text

  // ---------- no line is lost or sent twice ----------

  lemma {:induction false} FatesCount(u: ProxySetup, lines: seq<string>)
    ensures |lines| == |Filter(lines, Meets(u, Blacklisted))| + |Filter(lines, Meets(u, Nowhere))|
                       + |Filter(lines, Meets(u, NoName))| + |Filter(lines, Forwarded(u))|
  {
    hide FateOf;
    if lines != [] {
      FatesCount(u, lines[..|lines| - 1]);
    }
  }

  /** Every line submitted is dropped, waiting, in hand, or has met exactly one fate. */
  lemma ProxyLinesConserved(u: ProxySetup, s: ProxyState)
    requires ProxyReaches(u, s)
    ensures |s.submitted|
         == s.dropped + |s.queue| + |Held(s.hands, LineIn())|
            + |Filter(s.handled, Meets(u, Blacklisted))| + |Filter(s.handled, Meets(u, Nowhere))|
            + s.badLinesSeen + |s.sent|
  {
    hide Filter, Held, ProxyReaches, OneThreadInOrder, JudgedMatch;
    ProxyReachesInv(u, s);
    FatesCount(u, s.handled);
    assert |multiset(s.accepted)| == |s.accepted|;
  }

  /** What is sent was not blacklisted and goes by its name alone, so one aggregator owns each name. */
  lemma ProxySendsByName(u: ProxySetup, s: ProxyState)
    requires ProxyReaches(u, s)
    ensures forall g :: g in s.sent ==>
              && ':' in g.line && !Matched(u.blacklist, g.line) && g.line in s.accepted
              && u.destinations > 0 && g.destination == u.hash(RoutingPrefix(g.line)) % u.destinations
    ensures forall g, h :: g in s.sent && h in s.sent && RoutingPrefix(g.line) == RoutingPrefix(h.line) ==>
              g.destination == h.destination
  {
    hide Held, ProxyReaches, OneThreadInOrder, JudgedMatch, RoutingPrefix, Matched;
    ProxyReachesInv(u, s);
    FilterMembers(s.handled, Forwarded(u));
    forall g | g in s.sent
      ensures ':' in g.line && !Matched(u.blacklist, g.line) && g.line in s.accepted
      ensures u.destinations > 0 && g.destination == u.hash(RoutingPrefix(g.line)) % u.destinations
    {
      var i :| 0 <= i < |s.sent| && s.sent[i] == g;
      var line := Filter(s.handled, Forwarded(u))[i];
      assert line in Filter(s.handled, Forwarded(u));
      assert Forwarded(u)(line) && g == Addressed(u)(line);
      assert line in multiset(s.handled) && line in multiset(s.accepted);
    }
  }

  /** Nothing waits and no thread has a line in hand. */
  ghost predicate AtRest(s: ProxyState) {
    s.queue == [] && forall i :: 0 <= i < |s.hands| ==> s.hands[i].Free?
  }

  lemma RestHandled(u: ProxySetup, s: ProxyState)
    requires ProxyReaches(u, s) && AtRest(s)
    ensures multiset(s.handled) == multiset(s.accepted) == multiset(s.judged)
    ensures u.threads == 1 ==> s.handled == s.accepted == s.judged
  {
    hide ProxyReaches, Held, OutputMatches;
    ProxyReachesInv(u, s);
    NothingHeld(s.hands);
    assert s.handled + [] + [] == s.handled && s.handled + [] == s.handled;
  }

  /** Everything but the blacklisted lines is printed, if that is configured, each line once. */
  lemma ProxyPrintsKept(u: ProxySetup, s: ProxyState)
    requires ProxyReaches(u, s) && AtRest(s)
    ensures multiset(s.printed) == if u.toStdout then multiset(Filter(s.accepted, Kept(u))) else multiset{}
  {
    hide Filter, LinesMatch, JudgedMatch, OneThreadInOrder, ProxyReaches, AtRest;
    ProxyReachesInv(u, s);
    RestHandled(u, s);
    FilterPermutation(s.judged, s.accepted, Kept(u));
  }

  // ---------- which lines are dropped ----------

  /** The lines that found fewer than 10000 waiting, as C strings, and the number of those that did not. */
  ghost function Admitted(u: ProxySetup, actions: seq<ProxyAction>): seq<string>
    requires ExecProxy(u, actions).Some?
  {
    if actions == [] then []
    else
      var front, last := actions[..|actions| - 1], actions[|actions| - 1];
      if last.Arrive? && |ExecProxy(u, front).value.queue| < 10000 then Admitted(u, front) + [CStr(last.line)]
      else Admitted(u, front)
  }

  ghost function Refused(u: ProxySetup, actions: seq<ProxyAction>): nat
    requires ExecProxy(u, actions).Some?
  {
    if actions == [] then 0
    else
      var front, last := actions[..|actions| - 1], actions[|actions| - 1];
      if last.Arrive? && |ExecProxy(u, front).value.queue| == 10000 then Refused(u, front) + 1
      else Refused(u, front)
  }

  lemma ArrivalOfStep(u: ProxySetup, s: ProxyState, a: ProxyAction, t: ProxyState)
    requires NextProxy(u, s, a) == Some(t)
    ensures !a.Arrive? ==> t.accepted == s.accepted && t.dropped == s.dropped
    ensures a.Arrive? && |s.queue| < 10000 ==> t.accepted == s.accepted + [CStr(a.line)] && t.dropped == s.dropped
    ensures a.Arrive? && |s.queue| >= 10000 ==> t.accepted == s.accepted && t.dropped == s.dropped + 1
    ensures |s.queue| <= 10000 ==> |t.queue| <= 10000
  {
    hide FateOf, Matched, CStr;
  }

  /** In every run a line is dropped if and only if it comes when 10000 are waiting; the others are taken in order. */
  lemma {:induction false} ProxyDropsIffFull(u: ProxySetup, actions: seq<ProxyAction>, s: ProxyState)
    requires ExecProxy(u, actions) == Some(s)
    ensures s.accepted == Admitted(u, actions) && s.dropped == Refused(u, actions) && |s.queue| <= 10000
  {
    hide NextProxy;
    if actions != [] {
      var front, last := actions[..|actions| - 1], actions[|actions| - 1];
      var before := ExecProxy(u, front).value;
      ProxyDropsIffFull(u, front, before);
      ArrivalOfStep(u, before, last, s);
    }
  }

  // ---------- which lines are sent ----------

  /** No entry of the blacklist matches. */
  function Clear(blacklist: seq<string -> bool>): string -> bool {
    line => forall i :: 0 <= i < |blacklist| ==> !blacklist[i](line)
  }

  function ClearNamed(blacklist: seq<string -> bool>): string -> bool {
    line => Clear(blacklist)(line) && ':' in line
  }

  function ClearNameless(blacklist: seq<string -> bool>): string -> bool {
    line => Clear(blacklist)(line) && ':' !in line
  }

  lemma FateMeans(u: ProxySetup, line: string)
    ensures Forwarded(u)(line) <==> u.destinations > 0 && ClearNamed(u.blacklist)(line)
    ensures Meets(u, NoName)(line) <==> u.destinations > 0 && ClearNameless(u.blacklist)(line)
    ensures Kept(u)(line) <==> Clear(u.blacklist)(line)
  {
    hide RoutingPrefix;
    assert Matched(u.blacklist, line) <==> !Clear(u.blacklist)(line);
  }

  lemma FatesFilter(u: ProxySetup, lines: seq<string>)
    ensures Filter(lines, Forwarded(u)) == if u.destinations > 0 then Filter(lines, ClearNamed(u.blacklist)) else []
    ensures Filter(lines, Meets(u, NoName))
         == if u.destinations > 0 then Filter(lines, ClearNameless(u.blacklist)) else []
    ensures Filter(lines, Kept(u)) == Filter(lines, Clear(u.blacklist))
  {
    hide Filter, FateOf, Clear, ClearNamed, ClearNameless;
    forall line
      ensures Forwarded(u)(line) <==> u.destinations > 0 && ClearNamed(u.blacklist)(line)
      ensures Meets(u, NoName)(line) <==> u.destinations > 0 && ClearNameless(u.blacklist)(line)
      ensures Kept(u)(line) <==> Clear(u.blacklist)(line)
    {
      FateMeans(u, line);
    }
    FilterSame(lines, Kept(u), Clear(u.blacklist));
    if u.destinations > 0 {
      FilterSame(lines, Forwarded(u), ClearNamed(u.blacklist));
      FilterSame(lines, Meets(u, NoName), ClearNameless(u.blacklist));
    } else {
      FilterNone(lines, Forwarded(u));
      FilterNone(lines, Meets(u, NoName));
    }
  }

  /**
   At rest every accepted line that no entry of the blacklist matches has been sent if it has a name,
   and counted bad if not, as long as there is somewhere to send to; and no other line.
   */
  lemma ProxyDelivers(u: ProxySetup, s: ProxyState)
    requires ProxyReaches(u, s) && AtRest(s)
    ensures multiset(Image(s.sent, LineOf()))
         == if u.destinations > 0 then multiset(Filter(s.accepted, ClearNamed(u.blacklist))) else multiset{}
    ensures s.badLinesSeen == if u.destinations > 0 then |Filter(s.accepted, ClearNameless(u.blacklist))| else 0
    ensures multiset(s.printed) == if u.toStdout then multiset(Filter(s.accepted, Clear(u.blacklist))) else multiset{}
  {
    hide ProxyReaches, AtRest, Forwarded, Meets, Kept, Addressed, Filter, Held, JudgedMatch, OneThreadInOrder,
      LinesAddUp, Clear, ClearNamed, ClearNameless;
    ProxyReachesInv(u, s);
    RestHandled(u, s);
    LinesOfAddressed(u, Filter(s.handled, Forwarded(u)));
    FilterPermutation(s.handled, s.accepted, Forwarded(u));
    FilterPermutation(s.handled, s.accepted, Meets(u, NoName));
    SameLength(Filter(s.handled, Meets(u, NoName)), Filter(s.accepted, Meets(u, NoName)));
    FatesFilter(u, s.accepted);
    ProxyPrintsKept(u, s);
  }

  lemma SameLength(xs: seq<string>, ys: seq<string>)
    requires multiset(xs) == multiset(ys)
    ensures |xs| == |ys|
  {
    assert |xs| == |multiset(xs)| && |ys| == |multiset(ys)|;
  }

  lemma {:induction false} ClearSplits(lines: seq<string>, blacklist: seq<string -> bool>)
    ensures |Filter(lines, Clear(blacklist))|
         == |Filter(lines, ClearNamed(blacklist))| + |Filter(lines, ClearNameless(blacklist))|
  {
    hide Clear;
    if lines != [] {
      ClearSplits(lines[..|lines| - 1], blacklist);
    }
  }

  /** Nothing is sent or counted if and only if there is nowhere to send to or nothing passes the blacklist. */
  lemma ProxySilentIff(u: ProxySetup, s: ProxyState)
    requires ProxyReaches(u, s) && AtRest(s)
    ensures s.sent == [] && s.badLinesSeen == 0
       <==> u.destinations == 0 || Filter(s.accepted, Clear(u.blacklist)) == []
  {
    hide ProxyReaches, AtRest, Filter, Clear, ClearNamed, ClearNameless;
    ProxyDelivers(u, s);
    ClearSplits(s.accepted, u.blacklist);
    assert |multiset(Image(s.sent, LineOf()))| == |Image(s.sent, LineOf())| == |s.sent|;
    assert |multiset(Filter(s.accepted, ClearNamed(u.blacklist)))| == |Filter(s.accepted, ClearNamed(u.blacklist))|;
  }

  /** A line goes to the aggregator that its name, the text before its first colon, hashes to. */
  lemma ProxySendsTo(u: ProxySetup, s: ProxyState, g: Datagram, name: string, rest: string)
    requires ProxyReaches(u, s) && g in s.sent && g.line == name + ":" + rest && ':' !in name
    ensures u.destinations > 0 && g.destination == u.hash(name) % u.destinations
  {
    hide ProxyReaches;
    ProxySendsByName(u, s);
    assert g.line[|name|] == ':' && g.line[..|name|] == name;
    IndexOfUnique(g.line, ':', |name|);
  }

  /** With a single thread lines are sent and printed in the order they came. */
  lemma SingleThreadKeepsOrder(u: ProxySetup, s: ProxyState)
    requires ProxyReaches(u, s) && AtRest(s) && u.threads == 1
    ensures s.sent == Image(Filter(s.accepted, Forwarded(u)), Addressed(u))
    ensures s.printed == if u.toStdout then Filter(s.accepted, Kept(u)) else []
  {
    hide Filter, LinesMatch, JudgedMatch, OneThreadInOrder, ProxyReaches, AtRest;
    ProxyReachesInv(u, s);
    RestHandled(u, s);
  }

  lemma BothTaken(u: ProxySetup, a: string, b: string) returns (s: ProxyState)
    requires u.threads >= 2 && '\0' !in a && '\0' !in b
    ensures ProxyReaches(u, s) && s.queue == [] && s.sent == [] && s.printed == [] && s.accepted == [a, b]
    ensures |s.hands| == u.threads && s.hands[0] == Taken(a) && s.hands[1] == Taken(b)
    ensures forall i :: 2 <= i < |s.hands| ==> s.hands[i].Free?
  {
    hide FateOf, CStr, ProxyReaches;
    InitialProxyReached(u);
    var s0 := InitialProxy(u);
    var s1 := NextArrive(s0, a);
    ReachesMore(u, s0, Arrive(a), s1);
    assert s1.queue == [a] && s1.accepted == [a];
    var s2 := NextArrive(s1, b);
    ReachesMore(u, s1, Arrive(b), s2);
    assert s2.queue == [a, b] && s2.accepted == [a, b];
    var s3 := NextProxy(u, s2, Take(0)).value;
    ReachesMore(u, s2, Take(0), s3);
    assert s3.queue == [b];
    s := NextProxy(u, s3, Take(1)).value;
    ReachesMore(u, s3, Take(1), s);
  }

  lemma InitialProxyReached(u: ProxySetup)
    ensures ProxyReaches(u, InitialProxy(u))
  {
    assert ExecProxy(u, []) == Some(InitialProxy(u));
  }

  lemma JudgePrints(u: ProxySetup, s: ProxyState, i: nat) returns (t: ProxyState)
    requires ProxyReaches(u, s) && i < |s.hands| && s.hands[i].Taken? && Kept(u)(s.hands[i].line)
    ensures ProxyReaches(u, t) && t.queue == s.queue && t.accepted == s.accepted && t.sent == s.sent
    ensures t.hands == s.hands[i := Passed(s.hands[i].line)]
    ensures t.printed == s.printed + if u.toStdout then [s.hands[i].line] else []
  {
    hide ProxyReaches, Matched;
    t := NextProxy(u, s, Judge(i)).value;
    ReachesMore(u, s, Judge(i), t);
  }

  lemma RouteSends(u: ProxySetup, s: ProxyState, i: nat) returns (t: ProxyState)
    requires ProxyReaches(u, s) && i < |s.hands| && s.hands[i].Passed? && Forwarded(u)(s.hands[i].line)
    ensures ProxyReaches(u, t) && t.queue == s.queue && t.accepted == s.accepted && t.printed == s.printed
    ensures t.hands == s.hands[i := Free] && t.sent == s.sent + [Addressed(u)(s.hands[i].line)]
  {
    hide FateOf, ProxyReaches;
    t := NextProxy(u, s, Route(i)).value;
    ReachesMore(u, s, Route(i), t);
  }

  /** With more threads two lines can leave in the opposite order, even though printed in the right one. */
  lemma ThreadsReorder(u: ProxySetup, a: string, b: string) returns (s: ProxyState)
    requires u.threads >= 2 && Forwarded(u)(a) && Forwarded(u)(b) && '\0' !in a && '\0' !in b
    ensures ProxyReaches(u, s) && AtRest(s) && s.accepted == [a, b]
    ensures s.sent == [Addressed(u)(b), Addressed(u)(a)] && s.printed == if u.toStdout then [a, b] else []
  {
    hide FateOf, ProxyReaches;
    var s1 := BothTaken(u, a, b);
    var s2 := JudgePrints(u, s1, 0);
    var s3 := JudgePrints(u, s2, 1);
    var s4 := RouteSends(u, s3, 1);
    s := RouteSends(u, s4, 0);
  }

  lemma ReachesMore(u: ProxySetup, s: ProxyState, a: ProxyAction, t: ProxyState)
    requires ProxyReaches(u, s) && NextProxy(u, s, a) == Some(t)
    ensures ProxyReaches(u, t)
  {
    hide NextProxy, InitialProxy;
    var actions :| ExecProxy(u, actions) == Some(s);
    assert (actions + [a])[..|actions|] == actions;
    assert ExecProxy(u, actions + [a]) == Some(t);
  }

  /** So a gauge can end at its older value: order matters to gauges, and two threads can swap it. */
  lemma GaugeCanGoBack(u: ProxySetup, badLinesKey: string) returns (s: ProxyState)
    requires u.threads >= 2 && Forwarded(u)("load:1|g") && Forwarded(u)("load:2|g")
    ensures ProxyReaches(u, s) && AtRest(s) && s.accepted == ["load:1|g", "load:2|g"]
    ensures BookOf(badLinesKey, s.accepted).gauges == map["load" := 2.0]
    ensures BookOf(badLinesKey, Image(s.sent, LineOf())).gauges == map["load" := 1.0]
  {
    hide FateOf, ProxyReaches, BookOf, Classify, LoadLine;
    var first, second := "load:1|g", "load:2|g";
    LoadLinesShown();
    LoadLineMeans(1);
    LoadLineMeans(2);
    s := ThreadsReorder(u, first, second);
    assert Image(s.sent, LineOf()) == [second, first];
    TwoLinesGauges(badLinesKey, first, second);
    TwoLinesGauges(badLinesKey, second, first);
  }

  /** The aggregators' gauges are those of the lines in their own order, whatever the run. */
  ghost predicate GaugesKept(u: ProxySetup, badLinesKey: string) {
    forall s :: ProxyReaches(u, s) && AtRest(s) ==> GaugesRight(u, s, badLinesKey)
  }

  ghost predicate GaugesRight(u: ProxySetup, s: ProxyState, badLinesKey: string) {
    BookOf(badLinesKey, Image(s.sent, LineOf())).gauges
    == BookOf(badLinesKey, Filter(s.accepted, Forwarded(u))).gauges
  }

  /** No two lines that can reach the aggregators clash over a gauge. */
  ghost predicate NothingClashes(u: ProxySetup) {
    forall a, b :: Forwarded(u)(a) && Forwarded(u)(b) && '\0' !in a && '\0' !in b ==> !Clash(Classify(a), Classify(b))
  }

  /** That is so exactly for a proxy with one thread, or one whose blacklist leaves nothing to clash. */
  lemma GaugesKeptIff(u: ProxySetup, badLinesKey: string)
    requires u.threads >= 1
    ensures GaugesKept(u, badLinesKey) <==> u.threads == 1 || NothingClashes(u)
  {
    hide ProxyReaches, AtRest, GaugesRight, NothingClashes;
    if u.threads == 1 || NothingClashes(u) {
      forall s | ProxyReaches(u, s) && AtRest(s)
        ensures GaugesRight(u, s, badLinesKey)
      {
        if u.threads == 1 {
          OneThreadGauges(u, s, badLinesKey);
        } else {
          UnclashingGauges(u, s, badLinesKey);
        }
      }
    } else {
      var s := ClashingGauges(u, badLinesKey);
    }
  }

  lemma OneThreadGauges(u: ProxySetup, s: ProxyState, badLinesKey: string)
    requires ProxyReaches(u, s) && AtRest(s) && u.threads == 1
    ensures GaugesRight(u, s, badLinesKey)
  {
    hide ProxyReaches, AtRest, BookOf, Forwarded, Addressed, Filter;
    SingleThreadKeepsOrder(u, s);
    LinesOfAddressed(u, Filter(s.accepted, Forwarded(u)));
  }

  lemma UnclashingGauges(u: ProxySetup, s: ProxyState, badLinesKey: string)
    requires ProxyReaches(u, s) && AtRest(s) && NothingClashes(u)
    ensures GaugesRight(u, s, badLinesKey)
  {
    hide ProxyReaches, AtRest, BookOf, Forwarded, Addressed, Filter, Held, JudgedMatch, OneThreadInOrder, LinesAddUp,
      Clash, Classify;
    ProxyReachesInv(u, s);
    RestHandled(u, s);
    var sent, came := Filter(s.handled, Forwarded(u)), Filter(s.accepted, Forwarded(u));
    LinesOfAddressed(u, sent);
    FilterPermutation(s.handled, s.accepted, Forwarded(u));
    SameMembers(sent, came);
    FilterMembers(s.accepted, Forwarded(u));
    forall a, b | a in sent && b in sent
      ensures !Clash(Classify(a), Classify(b))
    {
      assert a in came && b in came;
    }
    BookGauges(badLinesKey, sent);
    BookGauges(badLinesKey, came);
    GaugesOrderFree(map[], sent, came);
  }

  /** Two threads and a clash are enough for a run that leaves the wrong gauges. */
  lemma ClashingGauges(u: ProxySetup, badLinesKey: string) returns (s: ProxyState)
    requires u.threads >= 2 && !NothingClashes(u)
    ensures ProxyReaches(u, s) && AtRest(s) && !GaugesRight(u, s, badLinesKey)
  {
    hide ProxyReaches, AtRest, BookOf, Forwarded, Addressed, Filter, Clash, Classify;
    var a, b :|
      Forwarded(u)(a) && Forwarded(u)(b) && '\0' !in a && '\0' !in b && Clash(Classify(a), Classify(b));
    s := ThreadsReorder(u, a, b);
    FilterAll([a, b], Forwarded(u));
    assert [Addressed(u)(b), Addressed(u)(a)] == Image([b, a], Addressed(u));
    LinesOfAddressed(u, [b, a]);
    TwoLinesGauges(badLinesKey, a, b);
    TwoLinesGauges(badLinesKey, b, a);
    ClashShows(Classify(a), Classify(b));
  }

  lemma TwoLinesGauges(badLinesKey: string, a: string, b: string)
    ensures BookOf(badLinesKey, [a, b]).gauges == NextGauges(NextGauges(map[], Classify(a)), Classify(b))
  {
    hide Classify, NextGauges;
    BookGauges(badLinesKey, [a, b]);
    GaugesOfTwo(a, b);
  }

  lemma LinesOfAddressed(u: ProxySetup, lines: seq<string>)
    ensures Image(Image(lines, Addressed(u)), LineOf()) == lines
  {
  }

  function LineOf(): Datagram -> string {
    (g: Datagram) => g.line
  }
}
