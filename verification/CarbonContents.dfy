/**
 What stands in the buffers the Carbon backend sends: each figure of the ledger on its own line, with
 its own prefix and its own value, in the buffer of the destination that owns its key, and nothing
 else. Then what that is for a ledger of the pipeline, in terms of the lines the worker was sent.
 */
module CarbonContents {
  import opened Amounts
  import opened CarbonBackendModel
  import opened Collections
  import opened Config
  import opened Gathering
  import opened HashRing
  import opened HashWord
  import opened LedgerModel
  import opened NameNormaliser
  import opened RingOwnership

  /** The text holds the line, with whatever before and after. */
  ghost predicate Holds(text: string, line: string) {
    exists before, after :: text == before + line + after
  }

  lemma {:induction false} JoinedHolds(log: seq<Emission>, e: Emission)
    requires e in log
    ensures Holds(Joined(log), e.line)
  {
    var front, last := log[..|log| - 1], log[|log| - 1];
    if e == last {
      assert Joined(log) == Joined(front) + e.line + "";
    } else {
      JoinedHolds(front, e);
      var before, after :| Joined(front) == before + e.line + after;
      assert Joined(log) == before + e.line + (after + last.line);
    }
  }

  /** A line that was emitted stands in the buffer its key is routed to. */
  lemma BufferHolds(route: string -> Hostport, stats: map<Hostport, string>, log: seq<Emission>, e: Emission)
    requires Buffers(route, stats, log) && e in log
    ensures route(e.key) in stats && Holds(stats[route(e.key)], e.line)
  {
    hide Joined, Holds, Filter;
    var d := route(e.key);
    var mine := Filter(log, To(route, d));
    FilterMembers(log, To(route, d));
    assert e in mine && Get(stats, d, "") == Joined(mine);
    JoinedHolds(mine, e);
  }

  // ---------- where a key goes ----------

  /** A key's lines go to the shard with the nearest point after the first four bytes of the key's digest. */
  lemma RouteOwns(md4: Md4, share: Share, nodes: map<string, Node>, ring: seq<RingElement>, key: string)
      returns (owner: string, h: Word)
    requires IsRing(md4, share, nodes, ring) && ring != []
    ensures owner in nodes && Route(md4, nodes, ring)(key) == nodes[owner].hostport
    ensures h == BytesValue(md4(key), 0) && Owns(md4, share, nodes, h, owner)
  {
    hide IsRing, BytesValue, DigestWord, Owns, Owner;
    h := HashOfKey(md4, key);
    owner := Owner(ring, h);
    DigestWordBytes(md4(key), 0);
    OwnerIsNearest(md4, share, nodes, ring, h);
  }

  // ---------- the lines of a ledger, written out ----------

  /** The end of each line: when it was sent. */
  function Time(p: Printing): string {
    " " + p.whole(p.timestamp) + "\n"
  }

  /** The line of one figure and the key it goes by. */
  ghost predicate IsLine(config: AggregatorConfig, p: Printing, b: Book, flusherId: int, key: string, line: string) {
    || (key in b.counters && IsCounterLine(config, p, b, key, line))
    || (key in b.timerData && IsTimerLine(config, p, b, key, line))
    || (key in b.gauges && IsGaugeLine(config, p, b, key, line))
    || (key in b.sets && IsSetLine(config, p, b, key, line))
    || IsOwnLine(config.name + ".thread_" + p.whole(flusherId), p, b, key, line)
    || IsStatusLine(config.name + ".thread_" + p.whole(flusherId), p, b, key, line)
  }

  ghost predicate IsCounterLine(config: AggregatorConfig, p: Printing, b: Book, key: string, line: string)
    requires key in b.counters
  {
    var name := config.prefix + config.prefixCounter + ProcessName(key);
    || line == name + ".rate" + " " + p.decimal(Get(b.counterRates, key, Num(0.0))) + Time(p)
    || line == name + ".count" + " " + p.decimal(b.counters[key]) + Time(p)
  }

  ghost predicate IsTimerLine(config: AggregatorConfig, p: Printing, b: Book, key: string, line: string)
    requires key in b.timerData
  {
    var name := config.prefix + config.prefixTimer + ProcessName(key);
    exists figure :: figure in b.timerData[key]
      && line == name + "." + figure + " " + p.decimal(b.timerData[key][figure]) + Time(p)
  }

  ghost predicate IsGaugeLine(config: AggregatorConfig, p: Printing, b: Book, key: string, line: string)
    requires key in b.gauges
  {
    line == config.prefix + config.prefixGauge + ProcessName(key) + " " + p.decimal(Num(b.gauges[key])) + Time(p)
  }

  ghost predicate IsSetLine(config: AggregatorConfig, p: Printing, b: Book, key: string, line: string)
    requires key in b.sets
  {
    line == config.prefix + config.prefixSet + ProcessName(key) + ".count" + " " + p.whole(|b.sets[key]|) + Time(p)
  }

  ghost predicate IsOwnLine(prefix: string, p: Printing, b: Book, key: string, line: string) {
    var numStats := |b.counters| + |b.timerData| + |b.gauges| + |b.sets|;
    || (key == prefix + ".numStats" && line == key + " " + p.whole(numStats) + Time(p))
    || (key == prefix + ".carbonStats.calculationtime" && line == key + " " + p.whole(p.elapsed) + Time(p))
  }

  ghost predicate IsStatusLine(prefix: string, p: Printing, b: Book, key: string, line: string) {
    exists name :: name in b.statsdMetrics && key == prefix + ("." + name)
                   && line == key + " " + p.whole(b.statsdMetrics[name]) + Time(p)
  }

  lemma {:induction false} GatherMembers<K, T>(s: set<K>, f: K -> multiset<T>, e: T)
    ensures e in Gather(s, f) <==> exists x :: x in s && e in f(x)
    decreases s
  {
    if s != {} {
      var y :| y in s;
      GatherRemove(s, y, f);
      GatherMembers(s - {y}, f, e);
    }
  }

  lemma CounterMembers(config: AggregatorConfig, p: Printing, b: Book, e: Emission)
    ensures e in Gather(b.counters.Keys, CounterLines(config, p, b))
       <==> e.key in b.counters && IsCounterLine(config, p, b, e.key, e.line)
  {
    hide Gather, ProcessName, IsCounterLine, CounterLines;
    GatherMembers(b.counters.Keys, CounterLines(config, p, b), e);
    forall key | key in b.counters
      ensures e in CounterLines(config, p, b)(key) <==> key == e.key && IsCounterLine(config, p, b, key, e.line)
    {
      TwoCounterLines(config, p, b, key, e);
    }
  }

  lemma TwoCounterLines(config: AggregatorConfig, p: Printing, b: Book, key: string, e: Emission)
    requires key in b.counters
    ensures e in CounterLines(config, p, b)(key) <==> key == e.key && IsCounterLine(config, p, b, key, e.line)
  {
    hide ProcessName;
  }

  lemma TimerMembers(config: AggregatorConfig, p: Printing, b: Book, e: Emission)
    ensures e in Gather(b.timerData.Keys, TimerLines(config, p, b))
       <==> e.key in b.timerData && IsTimerLine(config, p, b, e.key, e.line)
  {
    hide Gather, ProcessName;
    GatherMembers(b.timerData.Keys, TimerLines(config, p, b), e);
    forall key | key in b.timerData
      ensures e in TimerLines(config, p, b)(key) <==> key == e.key && IsTimerLine(config, p, b, key, e.line)
    {
      GatherMembers(b.timerData[key].Keys, FigureLines(config, p, b, key), e);
    }
  }

  lemma GaugeMembers(config: AggregatorConfig, p: Printing, b: Book, e: Emission)
    ensures e in Gather(b.gauges.Keys, GaugeLines(config, p, b))
       <==> e.key in b.gauges && IsGaugeLine(config, p, b, e.key, e.line)
  {
    hide Gather, ProcessName;
    GatherMembers(b.gauges.Keys, GaugeLines(config, p, b), e);
    assert e.key in b.gauges ==>
      (e in GaugeLines(config, p, b)(e.key) <==> IsGaugeLine(config, p, b, e.key, e.line));
  }

  lemma SetMembers(config: AggregatorConfig, p: Printing, b: Book, e: Emission)
    ensures e in Gather(b.sets.Keys, SetLines(config, p, b))
       <==> e.key in b.sets && IsSetLine(config, p, b, e.key, e.line)
  {
    hide Gather, ProcessName;
    GatherMembers(b.sets.Keys, SetLines(config, p, b), e);
    assert e.key in b.sets ==>
      (e in SetLines(config, p, b)(e.key) <==> IsSetLine(config, p, b, e.key, e.line));
  }

  lemma OwnMembers(prefix: string, p: Printing, b: Book, e: Emission)
    ensures e in OwnLines(prefix, p, b) <==> IsOwnLine(prefix, p, b, e.key, e.line)
  {
  }

  lemma StatusMembers(prefix: string, p: Printing, b: Book, e: Emission)
    ensures e in Gather(b.statsdMetrics.Keys, StatusLines(prefix, p, b)) <==> IsStatusLine(prefix, p, b, e.key, e.line)
  {
    hide Gather;
    GatherMembers(b.statsdMetrics.Keys, StatusLines(prefix, p, b), e);
    forall name | name in b.statsdMetrics
      ensures e in StatusLines(prefix, p, b)(name)
         <==> e.key == prefix + ("." + name) && e.line == e.key + " " + p.whole(b.statsdMetrics[name]) + Time(p)
    {
    }
  }

  /** A line is emitted under a key if and only if it is the line of one of the ledger's figures. */
  lemma EmittedIff(config: AggregatorConfig, p: Printing, b: Book, flusherId: int, key: string, line: string)
    ensures Emission(key, line) in AllLines(config, p, b, flusherId) <==> IsLine(config, p, b, flusherId, key, line)
  {
    hide Gather, CounterLines, TimerLines, GaugeLines, SetLines, StatusLines, OwnLines, IsCounterLine, IsTimerLine,
      IsGaugeLine, IsSetLine, IsOwnLine, IsStatusLine;
    var e := Emission(key, line);
    CounterMembers(config, p, b, e);
    TimerMembers(config, p, b, e);
    GaugeMembers(config, p, b, e);
    SetMembers(config, p, b, e);
    OwnMembers(StatsPrefix(config, p, flusherId), p, b, e);
    StatusMembers(StatsPrefix(config, p, flusherId), p, b, e);
  }

  /** So each line of a figure stands in the buffer of its owner, and every line in a buffer is one. */
  lemma BuffersSay(config: AggregatorConfig, p: Printing, b: Book, flusherId: int, route: string -> Hostport,
                   stats: map<Hostport, string>, log: seq<Emission>, key: string, line: string)
    requires Buffers(route, stats, log) && multiset(log) == AllLines(config, p, b, flusherId)
    ensures IsLine(config, p, b, flusherId, key, line) <==> Emission(key, line) in log
    ensures IsLine(config, p, b, flusherId, key, line) ==>
              route(key) in stats && Holds(stats[route(key)], line)
  {
    hide Buffers, AllLines, IsLine, Holds;
    var e := Emission(key, line);
    EmittedIff(config, p, b, flusherId, key, line);
    assert e in log <==> e in multiset(log);
    if e in log {
      BufferHolds(route, stats, log, e);
    }
  }

  // ---------- figure by figure ----------

  /** The buffers of one flush of this ledger, as the backend builds them. */
  ghost predicate Built(config: AggregatorConfig, p: Printing, b: Book, flusherId: int, route: string -> Hostport,
                        stats: map<Hostport, string>)
  {
    exists log :: Buffers(route, stats, log) && multiset(log) == AllLines(config, p, b, flusherId)
  }

  ghost predicate Says(route: string -> Hostport, stats: map<Hostport, string>, key: string, line: string) {
    route(key) in stats && Holds(stats[route(key)], line)
  }

  lemma LineSaid(config: AggregatorConfig, p: Printing, b: Book, flusherId: int, route: string -> Hostport,
                 stats: map<Hostport, string>, key: string, line: string)
    requires Built(config, p, b, flusherId, route, stats) && IsLine(config, p, b, flusherId, key, line)
    ensures Says(route, stats, key, line)
  {
    hide Buffers, AllLines, IsLine, Holds;
    var log :| Buffers(route, stats, log) && multiset(log) == AllLines(config, p, b, flusherId);
    BuffersSay(config, p, b, flusherId, route, stats, log, key, line);
  }

  /** The value of a figure, printed, after its name and before the time. */
  function Figure(name: string, value: string, p: Printing): string {
    name + " " + value + Time(p)
  }

  lemma CounterSaid(config: AggregatorConfig, p: Printing, b: Book, flusherId: int, route: string -> Hostport,
                    stats: map<Hostport, string>, k: string)
    requires Built(config, p, b, flusherId, route, stats) && k in b.counters && k in b.counterRates
    ensures var name := config.prefix + config.prefixCounter + ProcessName(k);
            && Says(route, stats, k, Figure(name + ".rate", p.decimal(b.counterRates[k]), p))
            && Says(route, stats, k, Figure(name + ".count", p.decimal(b.counters[k]), p))
  {
    hide Built, Says, ProcessName, IsTimerLine, IsGaugeLine, IsSetLine, IsOwnLine, IsStatusLine;
    var name := config.prefix + config.prefixCounter + ProcessName(k);
    LineSaid(config, p, b, flusherId, route, stats, k, Figure(name + ".rate", p.decimal(b.counterRates[k]), p));
    LineSaid(config, p, b, flusherId, route, stats, k, Figure(name + ".count", p.decimal(b.counters[k]), p));
  }

  lemma TimerSaid(config: AggregatorConfig, p: Printing, b: Book, flusherId: int, route: string -> Hostport,
                  stats: map<Hostport, string>, k: string, figure: string)
    requires Built(config, p, b, flusherId, route, stats) && k in b.timerData && figure in b.timerData[k]
    ensures var name := config.prefix + config.prefixTimer + ProcessName(k);
            Says(route, stats, k, Figure(name + "." + figure, p.decimal(b.timerData[k][figure]), p))
  {
    hide Built, Says, ProcessName, IsCounterLine, IsGaugeLine, IsSetLine, IsOwnLine, IsStatusLine;
    var name := config.prefix + config.prefixTimer + ProcessName(k);
    LineSaid(config, p, b, flusherId, route, stats, k,
             Figure(name + "." + figure, p.decimal(b.timerData[k][figure]), p));
  }

  lemma GaugeSaid(config: AggregatorConfig, p: Printing, b: Book, flusherId: int, route: string -> Hostport,
                  stats: map<Hostport, string>, k: string)
    requires Built(config, p, b, flusherId, route, stats) && k in b.gauges
    ensures var name := config.prefix + config.prefixGauge + ProcessName(k);
            Says(route, stats, k, Figure(name, p.decimal(Num(b.gauges[k])), p))
  {
    hide Built, Says, ProcessName, IsCounterLine, IsTimerLine, IsSetLine, IsOwnLine, IsStatusLine;
    var name := config.prefix + config.prefixGauge + ProcessName(k);
    LineSaid(config, p, b, flusherId, route, stats, k, Figure(name, p.decimal(Num(b.gauges[k])), p));
  }

  lemma SetSaid(config: AggregatorConfig, p: Printing, b: Book, flusherId: int, route: string -> Hostport,
                stats: map<Hostport, string>, k: string)
    requires Built(config, p, b, flusherId, route, stats) && k in b.sets
    ensures var name := config.prefix + config.prefixSet + ProcessName(k);
            Says(route, stats, k, Figure(name + ".count", p.whole(|b.sets[k]|), p))
  {
    hide Built, Says, ProcessName, IsCounterLine, IsTimerLine, IsGaugeLine, IsOwnLine, IsStatusLine;
    var name := config.prefix + config.prefixSet + ProcessName(k);
    LineSaid(config, p, b, flusherId, route, stats, k, Figure(name + ".count", p.whole(|b.sets[k]|), p));
  }

  lemma StatusSaid(config: AggregatorConfig, p: Printing, b: Book, flusherId: int, route: string -> Hostport,
                   stats: map<Hostport, string>, name: string)
    requires Built(config, p, b, flusherId, route, stats) && name in b.statsdMetrics
    ensures var key := config.name + ".thread_" + p.whole(flusherId) + ("." + name);
            Says(route, stats, key, Figure(key, p.whole(b.statsdMetrics[name]), p))
  {
    hide Built, Says, IsCounterLine, IsTimerLine, IsGaugeLine, IsSetLine, IsOwnLine;
    var key := config.name + ".thread_" + p.whole(flusherId) + ("." + name);
    LineSaid(config, p, b, flusherId, route, stats, key, Figure(key, p.whole(b.statsdMetrics[name]), p));
  }

  /** The flush says of itself how many keys it has and how long it took. */
  lemma OwnSaid(config: AggregatorConfig, p: Printing, b: Book, flusherId: int, route: string -> Hostport,
                stats: map<Hostport, string>)
    requires Built(config, p, b, flusherId, route, stats)
    ensures var prefix := config.name + ".thread_" + p.whole(flusherId);
            var keys, time := prefix + ".numStats", prefix + ".carbonStats.calculationtime";
            && Says(route, stats, keys,
                    Figure(keys, p.whole(|b.counters| + |b.timerData| + |b.gauges| + |b.sets|), p))
            && Says(route, stats, time, Figure(time, p.whole(p.elapsed), p))
  {
    hide Built, Says, IsCounterLine, IsTimerLine, IsGaugeLine, IsSetLine, IsStatusLine;
    var prefix := config.name + ".thread_" + p.whole(flusherId);
    var keys, time := prefix + ".numStats", prefix + ".carbonStats.calculationtime";
    LineSaid(config, p, b, flusherId, route, stats, keys,
             Figure(keys, p.whole(|b.counters| + |b.timerData| + |b.gauges| + |b.sets|), p));
    LineSaid(config, p, b, flusherId, route, stats, time, Figure(time, p.whole(p.elapsed), p));
  }
}
