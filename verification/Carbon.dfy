/**
 The Carbon backend: one line per figure, each appended to the buffer of the destination that owns
 its key on the hash ring, and the buffers handed to their connections.
 */
module CarbonBackendModel {
  import opened Amounts
  import opened Collections
  import opened Config
  import opened Gathering
  import opened HashRing
  import opened LedgerModel
  import opened NameNormaliser

  /** One line of output, and the key it is routed by. */
  datatype Emission = Emission(key: string, line: string)

  /** How numbers are printed, and the clock readings of one flush, are left open; a line ends in the time. */
  datatype Printing = Printing(decimal: Stat -> string, whole: int -> string, timestamp: int, elapsed: int) {
    function Suffix(): string {
      " " + whole(timestamp) + "\n"
    }
  }

  // ---------- the lines of a ledger ----------

  function MetricName(config: AggregatorConfig, kindPrefix: string, key: string): string {
    config.prefix + kindPrefix + ProcessName(key)
  }

  function StatsPrefix(config: AggregatorConfig, p: Printing, flusherId: int): string {
    config.name + ".thread_" + p.whole(flusherId)
  }

  function RateLine(config: AggregatorConfig, p: Printing, b: Book, key: string): Emission {
    Emission(key, MetricName(config, config.prefixCounter, key) + ".rate" + " "
                  + p.decimal(Get(b.counterRates, key, ZERO)) + p.Suffix())
  }

  function CountLine(config: AggregatorConfig, p: Printing, b: Book, key: string): Emission {
    Emission(key, MetricName(config, config.prefixCounter, key) + ".count" + " "
                  + p.decimal(Get(b.counters, key, ZERO)) + p.Suffix())
  }

  function TimerLine(config: AggregatorConfig, p: Printing, b: Book, key: string, figure: string): Emission {
    Emission(key, MetricName(config, config.prefixTimer, key) + "." + figure + " "
                  + p.decimal(Get(Get(b.timerData, key, map[]), figure, NotFinite)) + p.Suffix())
  }

  function GaugeLine(config: AggregatorConfig, p: Printing, b: Book, key: string): Emission {
    Emission(key, MetricName(config, config.prefixGauge, key) + " "
                  + p.decimal(Num(Get(b.gauges, key, 0.0))) + p.Suffix())
  }

  function SetLine(config: AggregatorConfig, p: Printing, b: Book, key: string): Emission {
    Emission(key, MetricName(config, config.prefixSet, key) + ".count" + " "
                  + p.whole(|Get(b.sets, key, {})|) + p.Suffix())
  }

  function StatusLine(prefix: string, p: Printing, name: string, value: int): Emission {
    Emission(prefix + name, prefix + name + " " + p.whole(value) + p.Suffix())
  }

  ghost function CounterLines(config: AggregatorConfig, p: Printing, b: Book): string -> multiset<Emission> {
    key => multiset{RateLine(config, p, b, key), CountLine(config, p, b, key)}
  }

  ghost function FigureLines(config: AggregatorConfig, p: Printing, b: Book, key: string):
      string -> multiset<Emission>
  {
    figure => multiset{TimerLine(config, p, b, key, figure)}
  }

  ghost function TimerLines(config: AggregatorConfig, p: Printing, b: Book): string -> multiset<Emission> {
    key => Gather(Get(b.timerData, key, map[]).Keys, FigureLines(config, p, b, key))
  }

  ghost function GaugeLines(config: AggregatorConfig, p: Printing, b: Book): string -> multiset<Emission> {
    key => multiset{GaugeLine(config, p, b, key)}
  }

  ghost function SetLines(config: AggregatorConfig, p: Printing, b: Book): string -> multiset<Emission> {
    key => multiset{SetLine(config, p, b, key)}
  }

  ghost function StatusLines(prefix: string, p: Printing, b: Book): string -> multiset<Emission> {
    name => multiset{StatusLine(prefix, p, "." + name, Get(b.statsdMetrics, name, 0))}
  }

  function NumStats(b: Book): nat {
    |b.counters| + |b.timerData| + |b.gauges| + |b.sets|
  }

  ghost function OwnLines(prefix: string, p: Printing, b: Book): multiset<Emission> {
    multiset{StatusLine(prefix, p, ".numStats", NumStats(b))}
    + multiset{StatusLine(prefix, p, ".carbonStats.calculationtime", p.elapsed)}
  }

  /** Everything one flush has to say. */
  ghost function AllLines(config: AggregatorConfig, p: Printing, b: Book, flusherId: int): multiset<Emission> {
    var prefix := StatsPrefix(config, p, flusherId);
    Gather(b.counters.Keys, CounterLines(config, p, b))
    + Gather(b.timerData.Keys, TimerLines(config, p, b))
    + Gather(b.gauges.Keys, GaugeLines(config, p, b))
    + Gather(b.sets.Keys, SetLines(config, p, b))
    + OwnLines(prefix, p, b)
    + Gather(b.statsdMetrics.Keys, StatusLines(prefix, p, b))
  }

  // ---------- buffers ----------

  /** Where a key's lines go. */
  ghost function Route(md4: Md4, nodes: map<string, Node>, ring: seq<RingElement>): string -> Hostport
    requires ring != []
  {
    key =>
      var owner := Owner(ring, HashOfKey(md4, key));
      if owner in nodes then nodes[owner].hostport else Hostport("", 0)
  }

  function Destination(route: string -> Hostport): Emission -> Hostport {
    (e: Emission) => route(e.key)
  }

  function To(route: string -> Hostport, d: Hostport): Emission -> bool {
    Falls(Destination(route), d)
  }

  function Joined(log: seq<Emission>): string {
    if log == [] then "" else Joined(log[..|log| - 1]) + log[|log| - 1].line
  }

  /** Each destination's buffer is the text of the lines routed there, and there is no other buffer. */
  ghost predicate Buffers(route: string -> Hostport, stats: map<Hostport, string>, log: seq<Emission>) {
    forall d ::
      && (d in stats <==> Filter(log, To(route, d)) != [])
      && Get(stats, d, "") == Joined(Filter(log, To(route, d)))
  }

  lemma JoinedSnoc(log: seq<Emission>, e: Emission)
    ensures Joined(log + [e]) == Joined(log) + e.line
  {
    assert (log + [e])[..|log|] == log;
  }

  lemma BuffersAppend(route: string -> Hostport, stats: map<Hostport, string>, log: seq<Emission>, e: Emission)
    requires Buffers(route, stats, log)
    ensures Buffers(route, stats[route(e.key) := Get(stats, route(e.key), "") + e.line], log + [e])
  {
    hide Joined, Filter;
    var own := route(e.key);
    var after := stats[own := Get(stats, own, "") + e.line];
    forall d
      ensures d in after <==> Filter(log + [e], To(route, d)) != []
      ensures Get(after, d, "") == Joined(Filter(log + [e], To(route, d)))
    {
      FilterSnoc(log, e, To(route, d));
      JoinedSnoc(Filter(log, To(route, d)), e);
    }
  }

  class Carbon {
    const config: AggregatorConfig
    const hashring: Hashring
    var connections: set<Hostport>
    /** What each connection has been asked to write, in order. */
    var written: map<Hostport, seq<string>>

    ghost predicate Valid()
      reads hashring
    {
      hashring.Valid() && hashring.ring != []
    }

    ghost function Routes(): string -> Hostport
      requires Valid()
      reads hashring
    {
      Route(hashring.md4, hashring.nodes, hashring.ring)
    }

    constructor (config: AggregatorConfig, hashring: Hashring)
      ensures this.config == config && this.hashring == hashring
      ensures connections == {} && written == map[]
    {
      this.config := config;
      this.hashring := hashring;
      connections, written := {}, map[];
    }

    /** Appends one line to the buffer of the destination that owns its key. */
    method Put(e: Emission, stats: map<Hostport, string>, ghost log: seq<Emission>) returns (r: map<Hostport, string>)
      requires Valid() && Buffers(Routes(), stats, log)
      ensures Buffers(Routes(), r, log + [e])
    {
      var node := hashring.Get(e.key);
      BuffersAppend(Routes(), stats, log, e);
      r := stats[node.hostport := Get(stats, node.hostport, "") + e.line];
    }

    method PutCounters(b: Book, p: Printing, stats: map<Hostport, string>, ghost log: seq<Emission>)
        returns (r: map<Hostport, string>, numStats: nat, ghost newLog: seq<Emission>)
      requires Valid() && Buffers(Routes(), stats, log) && b.counters.Keys <= b.counterRates.Keys
      ensures Buffers(Routes(), r, newLog) && numStats == |b.counters|
      ensures multiset(newLog) == multiset(log) + Gather(b.counters.Keys, CounterLines(config, p, b))
    {
      hide Buffers, Valid, Routes, Gather, RateLine, CountLine;
      r, numStats, newLog := stats, 0, log;
      var rest := b.counters.Keys;
      ghost var lines := CounterLines(config, p, b);
      NothingToGather(lines);
      while rest != {}
        invariant rest <= b.counters.Keys && numStats + |rest| == |b.counters|
        invariant Buffers(Routes(), r, newLog)
        invariant multiset(newLog) + Gather(rest, lines) == multiset(log) + Gather(b.counters.Keys, lines)
        decreases rest
      {
        var key :| key in rest;
        GatherRemove(rest, key, lines);
        r := Put(RateLine(config, p, b, key), r, newLog);
        newLog := newLog + [RateLine(config, p, b, key)];
        r := Put(CountLine(config, p, b, key), r, newLog);
        newLog := newLog + [CountLine(config, p, b, key)];
        numStats := numStats + 1;
        rest := rest - {key};
      }
    }

    method PutFigures(b: Book, p: Printing, key: string, stats: map<Hostport, string>, ghost log: seq<Emission>)
        returns (r: map<Hostport, string>, ghost newLog: seq<Emission>)
      requires Valid() && Buffers(Routes(), stats, log) && key in b.timerData
      ensures Buffers(Routes(), r, newLog)
      ensures multiset(newLog) == multiset(log) + TimerLines(config, p, b)(key)
    {
      hide Buffers, Valid, Routes, Gather, TimerLine;
      r, newLog := stats, log;
      var rest := b.timerData[key].Keys;
      ghost var lines := FigureLines(config, p, b, key);
      NothingToGather(lines);
      while rest != {}
        invariant rest <= b.timerData[key].Keys
        invariant Buffers(Routes(), r, newLog)
        invariant multiset(newLog) + Gather(rest, lines) == multiset(log) + Gather(b.timerData[key].Keys, lines)
        decreases rest
      {
        var figure :| figure in rest;
        GatherRemove(rest, figure, lines);
        r := Put(TimerLine(config, p, b, key, figure), r, newLog);
        newLog := newLog + [TimerLine(config, p, b, key, figure)];
        rest := rest - {figure};
      }
    }

    method PutTimers(b: Book, p: Printing, stats: map<Hostport, string>, ghost log: seq<Emission>)
        returns (r: map<Hostport, string>, numStats: nat, ghost newLog: seq<Emission>)
      requires Valid() && Buffers(Routes(), stats, log)
      ensures Buffers(Routes(), r, newLog) && numStats == |b.timerData|
      ensures multiset(newLog) == multiset(log) + Gather(b.timerData.Keys, TimerLines(config, p, b))
    {
      hide Buffers, Valid, Routes, Gather, FigureLines;
      r, numStats, newLog := stats, 0, log;
      var rest := b.timerData.Keys;
      ghost var lines := TimerLines(config, p, b);
      NothingToGather(lines);
      while rest != {}
        invariant rest <= b.timerData.Keys && numStats + |rest| == |b.timerData|
        invariant Buffers(Routes(), r, newLog)
        invariant multiset(newLog) + Gather(rest, lines) == multiset(log) + Gather(b.timerData.Keys, lines)
        decreases rest
      {
        var key :| key in rest;
        GatherRemove(rest, key, lines);
        r, newLog := PutFigures(b, p, key, r, newLog);
        numStats := numStats + 1;
        rest := rest - {key};
      }
    }

    method PutGauges(b: Book, p: Printing, stats: map<Hostport, string>, ghost log: seq<Emission>)
        returns (r: map<Hostport, string>, numStats: nat, ghost newLog: seq<Emission>)
      requires Valid() && Buffers(Routes(), stats, log)
      ensures Buffers(Routes(), r, newLog) && numStats == |b.gauges|
      ensures multiset(newLog) == multiset(log) + Gather(b.gauges.Keys, GaugeLines(config, p, b))
    {
      hide Buffers, Valid, Routes, Gather, GaugeLine;
      r, numStats, newLog := stats, 0, log;
      var rest := b.gauges.Keys;
      ghost var lines := GaugeLines(config, p, b);
      NothingToGather(lines);
      while rest != {}
        invariant rest <= b.gauges.Keys && numStats + |rest| == |b.gauges|
        invariant Buffers(Routes(), r, newLog)
        invariant multiset(newLog) + Gather(rest, lines) == multiset(log) + Gather(b.gauges.Keys, lines)
        decreases rest
      {
        var key :| key in rest;
        GatherRemove(rest, key, lines);
        r := Put(GaugeLine(config, p, b, key), r, newLog);
        newLog := newLog + [GaugeLine(config, p, b, key)];
        numStats := numStats + 1;
        rest := rest - {key};
      }
    }

    method PutSets(b: Book, p: Printing, stats: map<Hostport, string>, ghost log: seq<Emission>)
        returns (r: map<Hostport, string>, numStats: nat, ghost newLog: seq<Emission>)
      requires Valid() && Buffers(Routes(), stats, log)
      ensures Buffers(Routes(), r, newLog) && numStats == |b.sets|
      ensures multiset(newLog) == multiset(log) + Gather(b.sets.Keys, SetLines(config, p, b))
    {
      hide Buffers, Valid, Routes, Gather, SetLine;
      r, numStats, newLog := stats, 0, log;
      var rest := b.sets.Keys;
      ghost var lines := SetLines(config, p, b);
      NothingToGather(lines);
      while rest != {}
        invariant rest <= b.sets.Keys && numStats + |rest| == |b.sets|
        invariant Buffers(Routes(), r, newLog)
        invariant multiset(newLog) + Gather(rest, lines) == multiset(log) + Gather(b.sets.Keys, lines)
        decreases rest
      {
        var key :| key in rest;
        GatherRemove(rest, key, lines);
        r := Put(SetLine(config, p, b, key), r, newLog);
        newLog := newLog + [SetLine(config, p, b, key)];
        numStats := numStats + 1;
        rest := rest - {key};
      }
    }

    method PutStatus(b: Book, p: Printing, prefix: string, numStats: nat, stats: map<Hostport, string>,
                     ghost log: seq<Emission>)
        returns (r: map<Hostport, string>, ghost newLog: seq<Emission>)
      requires Valid() && Buffers(Routes(), stats, log) && numStats == NumStats(b)
      ensures Buffers(Routes(), r, newLog)
      ensures multiset(newLog)
           == multiset(log) + OwnLines(prefix, p, b) + Gather(b.statsdMetrics.Keys, StatusLines(prefix, p, b))
    {
      hide Buffers, Valid, Routes, Gather, StatusLine;
      newLog := log;
      r := Put(StatusLine(prefix, p, ".numStats", numStats), stats, newLog);
      newLog := newLog + [StatusLine(prefix, p, ".numStats", numStats)];
      r := Put(StatusLine(prefix, p, ".carbonStats.calculationtime", p.elapsed), r, newLog);
      newLog := newLog + [StatusLine(prefix, p, ".carbonStats.calculationtime", p.elapsed)];
      ghost var own := newLog;
      assert multiset(own) == multiset(log) + OwnLines(prefix, p, b);
      var rest := b.statsdMetrics.Keys;
      ghost var lines := StatusLines(prefix, p, b);
      NothingToGather(lines);
      while rest != {}
        invariant rest <= b.statsdMetrics.Keys
        invariant Buffers(Routes(), r, newLog)
        invariant multiset(newLog) + Gather(rest, lines) == multiset(own) + Gather(b.statsdMetrics.Keys, lines)
        decreases rest
      {
        var name :| name in rest;
        GatherRemove(rest, name, lines);
        r := Put(StatusLine(prefix, p, "." + name, b.statsdMetrics[name]), r, newLog);
        newLog := newLog + [StatusLine(prefix, p, "." + name, b.statsdMetrics[name])];
        rest := rest - {name};
      }
    }

    /** The buffers of one flush: every line of the ledger, each in the buffer of its owner only. */
    method BuildBuffers(b: Book, p: Printing, flusherId: int)
        returns (stats: map<Hostport, string>, numStats: nat, ghost log: seq<Emission>)
      requires Valid() && b.counters.Keys <= b.counterRates.Keys
      ensures Buffers(Routes(), stats, log)
      ensures multiset(log) == AllLines(config, p, b, flusherId)
      ensures numStats == NumStats(b)
    {
      hide Buffers, Valid, Routes, Gather, CounterLines, TimerLines, GaugeLines, SetLines, StatusLines, OwnLines;
      NoBuffers(Routes());
      stats, log := map[], [];
      var prefix := StatsPrefix(config, p, flusherId);
      var n;
      stats, numStats, log := PutCounters(b, p, stats, log);
      stats, n, log := PutTimers(b, p, stats, log);
      numStats := numStats + n;
      stats, n, log := PutGauges(b, p, stats, log);
      numStats := numStats + n;
      stats, n, log := PutSets(b, p, stats, log);
      numStats := numStats + n;
      stats, log := PutStatus(b, p, prefix, numStats, stats, log);
    }

    /** Hands each buffer to the connection of its destination, made if need be. */
    method WriteOut(stats: map<Hostport, string>)
      modifies this
      ensures connections == old(connections) + stats.Keys
      ensures forall d :: Get(written, d, [])
                       == old(Get(written, d, [])) + if d in stats then [stats[d]] else []
    {
      var rest := stats.Keys;
      while rest != {}
        invariant rest <= stats.Keys
        invariant connections == old(connections) + (stats.Keys - rest)
        invariant forall d :: Get(written, d, [])
                           == old(Get(written, d, [])) + if d in stats && d !in rest then [stats[d]] else []
        decreases rest
      {
        var dest :| dest in rest;
        if dest !in connections {
          connections := connections + {dest};
        }
        written := written[dest := Get(written, dest, []) + [stats[dest]]];
        rest := rest - {dest};
      }
    }

    /** One flush: each destination is sent, once, the lines it owns, and no other destination anything. */
    method FlushStats(b: Book, p: Printing, flusherId: int)
        returns (stats: map<Hostport, string>, ghost log: seq<Emission>)
      requires Valid() && b.counters.Keys <= b.counterRates.Keys
      modifies this
      ensures Valid() && Buffers(Routes(), stats, log) && multiset(log) == AllLines(config, p, b, flusherId)
      ensures connections == old(connections) + stats.Keys
      ensures forall d :: Get(written, d, [])
                       == old(Get(written, d, [])) + if d in stats then [stats[d]] else []
    {
      hide Buffers, Valid, Routes, AllLines;
      var numStats;
      stats, numStats, log := BuildBuffers(b, p, flusherId);
      WriteOut(stats);
    }
  }

  lemma NoBuffers(route: string -> Hostport)
    ensures Buffers(route, map[], [])
  {
  }

  // ---------- what that amounts to ----------

  /** The buffers hold all the lines between them, and no line twice. */
  lemma BuffersPartition(route: string -> Hostport, stats: map<Hostport, string>, log: seq<Emission>)
    requires Buffers(route, stats, log)
    ensures Gather(stats.Keys, Portion(log, Destination(route))) == multiset(log)
    ensures forall d :: d in stats ==> stats[d] == Joined(Filter(log, To(route, d)))
  {
    forall e | e in log
      ensures Destination(route)(e) in stats
    {
      FilterMembers(log, To(route, route(e.key)));
      assert e in Filter(log, To(route, route(e.key)));
    }
    GatherParts(log, Destination(route), stats.Keys);
    forall d | d in stats
      ensures stats[d] == Joined(Filter(log, To(route, d)))
    {
      assert Get(stats, d, "") == stats[d];
    }
  }

  function Figures(b: Book): string -> int {
    key => |Get(b.timerData, key, map[])|
  }

  lemma {:induction false} GatherCount<K>(s: set<K>, f: K -> multiset<Emission>, c: int)
    requires forall x :: x in s ==> |f(x)| == c
    ensures |Gather(s, f)| == c * |s|
  {
    GatherSize(s, f, x => c);
    SumConstant(s, x => c, c);
  }

  lemma TimerLineCount(config: AggregatorConfig, p: Printing, b: Book)
    ensures |Gather(b.timerData.Keys, TimerLines(config, p, b))| == Sum(b.timerData.Keys, Figures(b))
  {
    hide Gather, TimerLine;
    forall key | key in b.timerData
      ensures |TimerLines(config, p, b)(key)| == Figures(b)(key)
    {
      GatherCount(b.timerData[key].Keys, FigureLines(config, p, b, key), 1);
    }
    GatherSize(b.timerData.Keys, TimerLines(config, p, b), Figures(b));
  }

  lemma PlainLineCounts(config: AggregatorConfig, p: Printing, b: Book, prefix: string)
    ensures |Gather(b.counters.Keys, CounterLines(config, p, b))| == 2 * |b.counters|
    ensures |Gather(b.gauges.Keys, GaugeLines(config, p, b))| == |b.gauges|
    ensures |Gather(b.sets.Keys, SetLines(config, p, b))| == |b.sets|
    ensures |Gather(b.statsdMetrics.Keys, StatusLines(prefix, p, b))| == |b.statsdMetrics|
  {
    hide RateLine, CountLine, GaugeLine, SetLine, StatusLine;
    GatherCount(b.counters.Keys, CounterLines(config, p, b), 2);
    GatherCount(b.gauges.Keys, GaugeLines(config, p, b), 1);
    GatherCount(b.sets.Keys, SetLines(config, p, b), 1);
    GatherCount(b.statsdMetrics.Keys, StatusLines(prefix, p, b), 1);
  }

  /** How many lines one flush sends. */
  lemma LineCount(config: AggregatorConfig, p: Printing, b: Book, flusherId: int)
    ensures |AllLines(config, p, b, flusherId)|
         == 2 * |b.counters| + Sum(b.timerData.Keys, Figures(b)) + |b.gauges| + |b.sets| + 2 + |b.statsdMetrics|
  {
    hide Gather, CounterLines, TimerLines, GaugeLines, SetLines, StatusLines, StatusLine, Sum;
    var prefix := StatsPrefix(config, p, flusherId);
    TimerLineCount(config, p, b);
    PlainLineCounts(config, p, b, prefix);
  }
}
