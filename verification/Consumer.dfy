/**
 What feeds the workers: packets cut into lines, each line routed by its name, and the clock.
 */
module ConsumerObjects {
  import opened Config
  import opened Text
  import opened Routing
  import opened WorkerMachine
  import opened WorkerObjects

  ghost predicate Distinct(workers: seq<Worker>) {
    forall v, w :: 0 <= v < w < |workers| ==> workers[v] != workers[w]
  }

  class AggregatorConsumer {
    const config: AggregatorConfig
    const hash: StringHash
    const badKeysMetric: string
    const badKeysQueueHash: nat

    ghost predicate Valid() {
      && config.workers >= 1
      && badKeysMetric == BadKeysMetric(config)
      && badKeysQueueHash == hash(config.BadKeysKey()) % config.workers
    }

    constructor (config: AggregatorConfig, hash: StringHash)
      requires config.workers >= 1
      ensures Valid() && this.config == config && this.hash == hash
    {
      this.config := config;
      this.hash := hash;
      badKeysMetric := config.BadKeysKey() + ":1|c";
      badKeysQueueHash := hash(config.BadKeysKey()) % config.workers;
    }

    /** The one worker that owns the name gets the line; the others are not touched. */
    method Consume(metric: string, workers: seq<Worker>)
      requires Valid() && |workers| == config.workers && Distinct(workers)
      modifies set w | w in workers
      ensures var chosen := WorkerFor(config, hash)(metric);
              forall v :: 0 <= v < |workers| ==>
                workers[v].View()
                == if v == chosen then NextSubmit(old(workers[v].View()), Enqueued(config)(metric))
                   else old(workers[v].View())
    {
      var pos := IndexOf(metric, ':');
      if -1 != pos {
        var idx := hash(metric[..pos]) % config.workers;
        workers[idx].Submit(CStr(metric));
      } else {
        workers[badKeysQueueHash].Submit(badKeysMetric);
      }
    }
  }

  class Clock {
    /** One turn of the clock's loop: every worker's flag goes up. */
    method InterruptAll(workers: seq<Worker>)
      requires Distinct(workers)
      modifies set w | w in workers
      ensures forall v :: 0 <= v < |workers| ==> workers[v].View() == NextInterrupt(old(workers[v].View()))
    {
      for n := 0 to |workers|
        invariant forall v :: 0 <= v < |workers| ==>
          workers[v].View() == if v < n then NextInterrupt(old(workers[v].View())) else old(workers[v].View())
      {
        workers[n].RaiseInterrupt();
      }
    }
  }

  // ---------- packets ----------

  /** The lines `getline` reads: the text between newlines; a final newline ends no further line. */
  function PacketLines(text: string): seq<string>
    decreases |text|
  {
    if text == "" then []
    else
      var i := IndexOf(text, '\n');
      if i == -1 then [text] else [text[..i]] + PacketLines(text[i + 1..])
  }

  lemma NoPacketNoLines()
    ensures PacketLines("") == []
  {
  }

  lemma PacketLinesStep(text: string)
    requires text != ""
    ensures var i := IndexOf(text, '\n');
            PacketLines(text) == if i == -1 then [text] else [text[..i]] + PacketLines(text[i + 1..])
  {
    hide IndexOf;
  }

  lemma Regroup(a: seq<string>, l: string, b: seq<string>)
    ensures a + ([l] + b) == a + [l] + b && a + [] == a
  {
  }

  /** The loop that reads a packet line by line; a NUL ends the packet's text. */
  method ReadLines(packet: string) returns (lines: seq<string>)
    ensures lines == PacketLines(CStr(packet))
  {
    hide PacketLines, CStr;
    NoPacketNoLines();
    lines := [];
    Regroup([], "", []);
    var rest := CStr(packet);
    while rest != ""
      invariant lines + PacketLines(rest) == PacketLines(CStr(packet))
      decreases |rest|
    {
      PacketLinesStep(rest);
      var i := IndexOf(rest, '\n');
      if i == -1 {
        Regroup(lines + [rest], "", []);
        lines := lines + [rest];
        rest := "";
      } else {
        Regroup(lines, rest[..i], PacketLines(rest[i + 1..]));
        lines := lines + [rest[..i]];
        rest := rest[i + 1..];
      }
    }
    Regroup(lines, "", []);
  }

  function Unlines(lines: seq<string>): string {
    if lines == [] then "" else lines[0] + "\n" + Unlines(lines[1..])
  }

  /** Lines put into a packet, each with its newline, come out again as they were. */
  lemma {:induction false} PacketRoundTrip(lines: seq<string>)
    requires forall l :: l in lines ==> '\n' !in l
    ensures PacketLines(Unlines(lines)) == lines
  {
    if lines != [] {
      var text := Unlines(lines);
      var l := lines[0];
      assert text[|l|] == '\n' && text[..|l|] == l;
      IndexOfUnique(text, '\n', |l|);
      assert text[|l| + 1..] == Unlines(lines[1..]);
      PacketRoundTrip(lines[1..]);
    }
  }

  /** Reading loses nothing but a missing final newline, and no line contains one. */
  lemma {:induction false} PacketRestored(text: string)
    ensures forall l :: l in PacketLines(text) ==> '\n' !in l
    ensures Unlines(PacketLines(text)) == if text == "" || text[|text| - 1] == '\n' then text else text + "\n"
    decreases |text|
  {
    if text != "" {
      var i := IndexOf(text, '\n');
      if i == -1 {
        assert Unlines([text]) == text + "\n" + Unlines([]);
      } else {
        var rest := text[i + 1..];
        assert text == text[..i] + "\n" + rest;
        PacketRestored(rest);
        assert PacketLines(text)[1..] == PacketLines(rest);
        assert text[..i] + "\n" + (rest + "\n") == text + "\n";
        assert rest != "" ==> rest[|rest| - 1] == text[|text| - 1];
      }
    }
  }
}
