/**
 Gauges and the order of lines: which pairs of gauge lines must not change places, and that nothing
 else about the order matters.
 */
module GaugeOrder {
  import opened Arithmetic
  import opened Collections
  import opened Decimal
  import opened LedgerMeaning
  import opened LedgerModel
  import opened MetricLine
  import opened Text

  /** The gauges after some more lines. */
  function GaugesAfter(gauges: map<string, real>, lines: seq<string>): map<string, real> {
    if lines == [] then gauges
    else NextGauges(GaugesAfter(gauges, lines[..|lines| - 1]), Classify(lines[|lines| - 1]))
  }

  lemma {:induction false} BufferedGauges(b: Book, badLinesKey: string, lines: seq<string>)
    ensures BufferLines(b, badLinesKey, lines).gauges == GaugesAfter(b.gauges, lines)
  {
    hide Classify, NextGauges;
    if lines != [] {
      BufferedGauges(b, badLinesKey, lines[..|lines| - 1]);
    }
  }

  lemma BookGauges(badLinesKey: string, lines: seq<string>)
    ensures BookOf(badLinesKey, lines).gauges == GaugesAfter(map[], lines)
  {
    BufferedGauges(EMPTY_BOOK, badLinesKey, lines);
  }

  lemma GaugesOneMore(gauges: map<string, real>, lines: seq<string>, line: string)
    ensures GaugesAfter(gauges, lines + [line]) == NextGauges(GaugesAfter(gauges, lines), Classify(line))
  {
    assert (lines + [line])[..|lines|] == lines;
  }

  lemma GaugesOfTwo(a: string, b: string)
    ensures GaugesAfter(map[], [a]) == NextGauges(map[], Classify(a))
    ensures GaugesAfter(map[], [a, b]) == NextGauges(NextGauges(map[], Classify(a)), Classify(b))
  {
    hide Classify, NextGauges;
    GaugesOneMore(map[], [], a);
    GaugesOneMore(map[], [a], b);
    assert [] + [a] == [a] && [a] + [b] == [a, b];
  }

  /** The line that sets the gauge `load` to `n`, or takes `-n` off it. */
  function LoadLine(n: int): string {
    "load:" + ShowNumber(n, 0) + "|g"
  }

  lemma LoadLineMeans(n: int)
    requires -10 < n < 10
    ensures Classify(LoadLine(n)) == Accepted(Gauge, "load", ShowNumber(n, 0), n as real, 1.0, n < 0)
    ensures '\0' !in LoadLine(n)
  {
    var value := ShowNumber(n, 0);
    ParseShown(n, 0);
    assert NatText(Abs(n)) == [DigitChar(Abs(n))];
    assert value == if n < 0 then "-" + [DigitChar(-n)] else [DigitChar(n)];
    assert n as real / PowTen(0) == n as real;
    assert PrintLine("load", value, Gauge, None) == LoadLine(n);
    PrintedLineRoundTrip("load", value, Gauge, None, 1.0);
  }

  lemma LoadLinesShown()
    ensures LoadLine(1) == "load:1|g" && LoadLine(2) == "load:2|g"
    ensures LoadLine(5) == "load:5|g" && LoadLine(-1) == "load:-1|g"
  {
    assert NatText(1) == [DigitChar(1)] == "1" && NatText(2) == [DigitChar(2)] == "2";
    assert NatText(5) == [DigitChar(5)] == "5";
    assert ShowNumber(1, 0) == "1" && ShowNumber(2, 0) == "2" && ShowNumber(5, 0) == "5";
    assert ShowNumber(-1, 0) == "-" + "1";
  }

  // ---------- lines that must not change places ----------

  /** Two writes of different values to one gauge, or a write and a change of other than 0. */
  predicate Clash(p: Parsed, q: Parsed) {
    && p.Accepted? && q.Accepted? && p.kind == Gauge && q.kind == Gauge && p.name == q.name
    && !(p.delta && q.delta)
    && (if p.delta then p.value != 0.0 else if q.delta then q.value != 0.0 else p.value != q.value)
  }

  lemma NoClashCommutes(gauges: map<string, real>, p: Parsed, q: Parsed)
    requires !Clash(p, q)
    ensures NextGauges(NextGauges(gauges, p), q) == NextGauges(NextGauges(gauges, q), p)
  {
  }

  lemma ClashShows(p: Parsed, q: Parsed)
    requires Clash(p, q)
    ensures NextGauges(NextGauges(map[], p), q) != NextGauges(NextGauges(map[], q), p)
  {
    assert NextGauges(NextGauges(map[], p), q)[p.name] != NextGauges(NextGauges(map[], q), p)[p.name];
  }

  ghost predicate NoneClash(lines: seq<string>) {
    forall a, b :: a in lines && b in lines ==> !Clash(Classify(a), Classify(b))
  }

  /** A line that clashes with none of those after it can be moved to the end. */
  lemma {:induction false} MoveToEnd(gauges: map<string, real>, line: string, rest: seq<string>)
    requires forall b :: b in rest ==> !Clash(Classify(line), Classify(b))
    ensures GaugesAfter(NextGauges(gauges, Classify(line)), rest)
         == NextGauges(GaugesAfter(gauges, rest), Classify(line))
  {
    hide Classify, NextGauges, Clash;
    if rest != [] {
      var front, last := rest[..|rest| - 1], rest[|rest| - 1];
      assert last in rest && forall b :: b in front ==> b in rest;
      MoveToEnd(gauges, line, front);
      NoClashCommutes(GaugesAfter(gauges, front), Classify(line), Classify(last));
    }
  }

  lemma {:induction false} GaugesAppend(gauges: map<string, real>, xs: seq<string>, ys: seq<string>)
    ensures GaugesAfter(gauges, xs + ys) == GaugesAfter(GaugesAfter(gauges, xs), ys)
  {
    hide Classify, NextGauges;
    if ys == [] {
      assert xs + ys == xs;
    } else {
      assert (xs + ys)[..|xs + ys| - 1] == xs + ys[..|ys| - 1];
      GaugesAppend(gauges, xs, ys[..|ys| - 1]);
    }
  }

  lemma TakenOut(gauges: map<string, real>, lines: seq<string>, i: nat)
    requires i < |lines| && NoneClash(lines)
    ensures GaugesAfter(gauges, lines)
         == NextGauges(GaugesAfter(gauges, lines[..i] + lines[i + 1..]), Classify(lines[i]))
  {
    hide GaugesAfter, Classify, NextGauges, Clash;
    var front, line, rest := lines[..i], lines[i], lines[i + 1..];
    assert lines == front + [line] + rest;
    assert line in lines && forall b :: b in rest ==> b in lines;
    GaugesAppend(gauges, front + [line], rest);
    GaugesOneMore(gauges, front, line);
    MoveToEnd(GaugesAfter(gauges, front), line, rest);
    GaugesAppend(gauges, front, rest);
  }

  /** Lines without clashes give the same gauges in every order. */
  lemma {:induction false} GaugesOrderFree(gauges: map<string, real>, xs: seq<string>, ys: seq<string>)
    requires multiset(xs) == multiset(ys) && NoneClash(xs)
    ensures GaugesAfter(gauges, xs) == GaugesAfter(gauges, ys)
    decreases |xs|
  {
    hide Classify, NextGauges, Clash;
    SameMembers(xs, ys);
    if xs == [] {
      assert |ys| == |multiset(ys)| == 0;
    } else {
      var i := RemoveLast(xs, ys);
      var front := xs[..|xs| - 1];
      assert forall a :: a in front ==> a in xs;
      GaugesOrderFree(gauges, front, ys[..i] + ys[i + 1..]);
      TakenOut(gauges, ys, i);
    }
  }
}
