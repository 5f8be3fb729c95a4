/**
 Which worker a received line goes to, and what is put into its queue.
 */
module Routing {
  import opened Collections
  import opened Config
  import opened Text
  import opened Decimal
  import opened MetricLine
  import opened Sharding

  /** `std::hash<std::string>` stays uninterpreted. */
  type StringHash = string -> nat

  function BadKeysMetric(config: AggregatorConfig): string {
    config.BadKeysKey() + ":1|c"
  }

  /** A line without a colon is replaced by a count of bad keys; others are copied as C strings. */
  function Enqueued(config: AggregatorConfig): string -> string {
    metric => if ':' in metric then CStr(metric) else BadKeysMetric(config)
  }

  /** The worker that owns a metric name. */
  function OwnerOfName(config: AggregatorConfig, hash: StringHash): string -> nat
    requires config.workers >= 1
  {
    name => hash(name) % config.workers
  }

  function WorkerFor(config: AggregatorConfig, hash: StringHash): string -> nat
    requires config.workers >= 1
  {
    metric => hash(if ':' in metric then RoutingPrefix(metric) else config.BadKeysKey()) % config.workers
  }

  /** A line goes to the worker its name hashes to, and is queued as it is, up to a NUL. */
  lemma NamedLine(config: AggregatorConfig, hash: StringHash, name: string, rest: string)
    requires config.workers >= 1 && ':' !in name
    ensures var line, queued := name + ":" + rest, Enqueued(config)(name + ":" + rest);
            && WorkerFor(config, hash)(line) == hash(name) % config.workers
            && queued <= line && '\0' !in queued && (queued == line || line[|queued|] == '\0')
  {
    var line := name + ":" + rest;
    assert line[|name|] == ':' && line[..|name|] == name;
    IndexOfUnique(line, ':', |name|);
  }

  /** One without a name goes to the worker of the bad-keys counter, and counts 1 for it. */
  lemma NamelessLine(config: AggregatorConfig, hash: StringHash, line: string)
    requires config.workers >= 1 && ':' !in line
    ensures WorkerFor(config, hash)(line) == hash(config.name + ".bad_keys") % config.workers
    ensures Enqueued(config)(line) == config.name + ".bad_keys:1|c"
  {
    assert config.BadKeysKey() == config.name + ".bad_keys";
    assert config.name + ".bad_keys" + ":1|c" == config.name + ".bad_keys:1|c";
  }

  lemma PrefixOfCString(metric: string)
    requires ':' in CStr(metric)
    ensures RoutingPrefix(CStr(metric)) == RoutingPrefix(metric)
  {
    var s := CStr(metric);
    var i := IndexOf(s, ':');
    assert metric[i] == s[i] && metric[..i] == s[..i];
    IndexOfUnique(metric, ':', i);
  }

  lemma PrefixOfBadKeys(config: AggregatorConfig)
    requires ':' !in config.name
    ensures RoutingPrefix(BadKeysMetric(config)) == config.BadKeysKey()
  {
    var key := config.BadKeysKey();
    var metric := BadKeysMetric(config);
    assert ":1|c"[0] == ':';
    assert metric[|key|] == ':' && metric[..|key|] == key;
    assert ':' !in ".bad_keys";
    IndexOfUnique(metric, ':', |key|);
  }

  /** Whatever the ledger accepts went to the worker that owns its name. */
  lemma EnqueuedRoutedByName(config: AggregatorConfig, hash: StringHash)
    requires config.WellFormed()
    ensures RoutedByName(WorkerFor(config, hash), Enqueued(config), OwnerOfName(config, hash))
  {
    hide Classify;
    forall metric | Classify(Enqueued(config)(metric)).Accepted?
      ensures WorkerFor(config, hash)(metric)
           == OwnerOfName(config, hash)(Classify(Enqueued(config)(metric)).name)
    {
      var line := Enqueued(config)(metric);
      AcceptedShape(line);
      if ':' in metric {
        PrefixOfCString(metric);
      } else {
        PrefixOfBadKeys(config);
      }
    }
  }

  /** The replacement for lines without a name is itself an acceptable counter line. */
  lemma BadKeysMetricAccepted(config: AggregatorConfig)
    requires ':' !in config.name && '\0' !in config.name && |config.BadKeysKey()| <= TOKEN_LIMIT
    ensures Classify(BadKeysMetric(config)) == Accepted(Counter, config.BadKeysKey(), "1", 1.0, 1.0, false)
  {
    var key := config.BadKeysKey();
    assert ':' !in ".bad_keys" && '\0' !in ".bad_keys";
    assert key[|config.name|..] == ".bad_keys";
    assert PrintLine(key, "1", Counter, None) == BadKeysMetric(config);
    OneShown();
    PrintedLineRoundTrip(key, "1", Counter, None, 1.0);
  }

  lemma OneShown()
    ensures ParseNumber("1") == Some(1.0)
  {
    ParseShown(1, 0);
    assert NatText(1) == "1";
    assert ShowNumber(1, 0) == "1";
    assert 1.0 / PowTen(0) == 1.0;
  }
}
