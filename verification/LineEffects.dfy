/**
 What one line does to a ledger, from its text to the figures: said with the line's own name and the
 number its value denotes, for every kind of line and every way to write it.
 */
module LineEffects {
  import opened Amounts
  import opened Collections
  import opened Config
  import opened Decimal
  import opened LedgerModel
  import opened LineGrammar
  import opened MetricLine
  import opened Numerals
  import opened Text

  /** One more line seen, and one more under this name. */
  function Counted(b: Book, name: string): Book {
    b.(frequency := b.frequency[name := Get(b.frequency, name, 0) + 1],
       statsdMetrics := b.statsdMetrics["metrics_processed" := Get(b.statsdMetrics, "metrics_processed", 0) + 1])
  }

  /** A line with the type `t`, blanks before it aside. */
  ghost predicate Typed(line: string, name: string, value: string, t: string, rest: string) {
    && (t == "" || t[0] != ' ')
    && exists blanks :: (forall c :: c in blanks ==> c == ' ') && Divides(line, name, value, blanks + t, rest)
  }

  lemma TypedMeans(line: string, name: string, value: string, t: string, rest: string)
    requires Typed(line, name, value, t, rest)
    ensures value != ""
    ensures var number, rate, signed := ParseNumber(value), ScanRate(rest), value[0] == '+' || value[0] == '-';
            Classify(line)
            == if t == "" then Bad
               else if t[0] == 's' then Accepted(Unique, name, value, 0.0, rate, false)
               else if number.None? then Bad
               else if t == "ms" then Accepted(Timer, name, value, number.value, rate, false)
               else if t[0] == 'g' then Accepted(Gauge, name, value, number.value, rate, signed)
               else Accepted(Counter, name, value, number.value, rate, false)
  {
    hide Classify, ScanRate, ParseNumber;
    var blanks :| (forall c :: c in blanks ==> c == ' ') && Divides(line, name, value, blanks + t, rest);
    DividedMeans(line, name, value, blanks, t, rest);
  }

  lemma NumeralSign(n: Numeral)
    requires IsNumeral(n)
    ensures var s := NumeralText(n); s != "" && (s[0] == '+' || s[0] == '-' <==> n.sign != "")
  {
    var s := NumeralText(n);
    assert s[0] == if n.sign != "" then n.sign[0] else if n.whole != "" then n.whole[0] else '.';
  }

  /** A gauge is set to a number without a sign, and changed by one with a sign. */
  lemma GaugeLine(b: Book, badLinesKey: string, line: string, name: string, n: Numeral, t: string, rest: string)
    requires IsNumeral(n) && Typed(line, name, NumeralText(n), t, rest) && t != "" && t[0] == 'g'
    ensures BufferLine(b, badLinesKey, line)
         == Counted(b, name).(gauges := b.gauges[name := if n.sign == "" then Denoted(n)
                                                         else Get(b.gauges, name, 0.0) + Denoted(n)])
  {
    hide Classify, ParseNumber, ScanRate, Denoted, NumeralText, Typed;
    TypedMeans(line, name, NumeralText(n), t, rest);
    NumeralParses(n);
    NumeralSign(n);
  }

  /** A timer is given one more sample, which stands for one over the rate. */
  lemma TimerLine(b: Book, badLinesKey: string, line: string, name: string, n: Numeral, rest: string)
    requires IsNumeral(n) && Typed(line, name, NumeralText(n), "ms", rest)
    ensures var rate := ScanRate(rest);
            var count := Get(b.timerCounters, name, Num(0.0));
            BufferLine(b, badLinesKey, line)
            == Counted(b, name).(timers := b.timers[name := Get(b.timers, name, []) + [Denoted(n)]],
                                 timerCounters := b.timerCounters[name :=
                                   if rate == 0.0 || count.NotFinite? then NotFinite
                                   else Num(count.value + 1.0 / rate)])
  {
    hide Classify, ParseNumber, ScanRate, Denoted, NumeralText, Typed;
    TypedMeans(line, name, NumeralText(n), "ms", rest);
    NumeralParses(n);
  }

  /** A counter, or a line of unknown type, adds its value as often as the rate says. */
  lemma CounterLine(b: Book, badLinesKey: string, line: string, name: string, n: Numeral, t: string, rest: string)
    requires IsNumeral(n) && Typed(line, name, NumeralText(n), t, rest)
    requires t != "" && t != "ms" && t[0] != 'g' && t[0] != 's'
    ensures var rate := ScanRate(rest);
            var count := Get(b.counters, name, Num(0.0));
            BufferLine(b, badLinesKey, line)
            == Counted(b, name).(counters := b.counters[name :=
                                   if rate == 0.0 || count.NotFinite? then NotFinite
                                   else Num(count.value + Denoted(n) / rate)])
  {
    hide Classify, ParseNumber, ScanRate, Denoted, NumeralText, Typed, Weighted, AddTo;
    var value, rate := Denoted(n), ScanRate(rest);
    TypedMeans(line, name, NumeralText(n), t, rest);
    NumeralParses(n);
    assert BufferLine(b, badLinesKey, line)
        == Counted(b, name).(counters := AddTo(b.counters, name, Weighted(value, rate)));
    AddsWeighted(b.counters, name, value, rate);
  }

  lemma AddsWeighted(m: map<string, Stat>, k: string, value: real, rate: real)
    ensures var count := Get(m, k, Num(0.0));
            AddTo(m, k, Weighted(value, rate))
            == m[k := if rate == 0.0 || count.NotFinite? then NotFinite else Num(count.value + value / rate)]
  {
    hide Weighted;
    WeightedIs(value, rate);
  }

  lemma WeightedIs(value: real, rate: real)
    ensures Weighted(value, rate) == if rate == 0.0 then NotFinite else Num(value / rate)
  {
    if rate != 0.0 {
      assert value * (1.0 / rate) == value / rate;
    }
  }

  /** A set is given the text of the value, whatever it is. */
  lemma SetLine(b: Book, badLinesKey: string, line: string, name: string, value: string, t: string, rest: string)
    requires Typed(line, name, value, t, rest) && t != "" && t[0] == 's'
    ensures BufferLine(b, badLinesKey, line)
         == Counted(b, name).(sets := b.sets[name := Get(b.sets, name, {}) + {value}])
  {
    hide Classify, ParseNumber, ScanRate, Typed;
    TypedMeans(line, name, value, t, rest);
  }

  /** A line is fine if it falls apart, has a type, and has a number for its value unless it is a set's. */
  ghost predicate Fine(line: string) {
    exists name, value, t, rest :: Typed(line, name, value, t, rest) && t != "" && (t[0] == 's' || IsNumber(value))
  }

  ghost predicate IsNumber(value: string) {
    exists n :: IsNumeral(n) && NumeralText(n) == value
  }

  lemma NumberParses(value: string)
    ensures IsNumber(value) <==> ParseNumber(value).Some?
  {
    hide ParseNumber, NumeralText, IsNumeral, Denoted;
    if n :| IsNumeral(n) && NumeralText(n) == value {
      NumeralParses(n);
    }
    if ParseNumber(value).Some? {
      ParsesIffNumeral(value, ParseNumber(value).value);
    }
  }

  lemma TypeOfDivided(line: string, name: string, value: string, typ: string, rest: string) returns (t: string)
    requires Divides(line, name, value, typ, rest)
    ensures Typed(line, name, value, t, rest)
  {
    hide CStr;
    var k := if typ[0] != ' ' then 0 else if |typ| == 1 || typ[1] != ' ' then 1 else 2;
    t := typ[k..];
    assert typ[..k] + t == typ;
  }

  /** Exactly those are accepted. */
  lemma AcceptedIffFine(line: string)
    ensures Classify(line).Accepted? <==> Fine(line)
  {
    hide Classify, ParseNumber, ScanRate, Typed, IsNumber;
    if name, value, t, rest :| Typed(line, name, value, t, rest) && t != "" && (t[0] == 's' || IsNumber(value)) {
      TypedMeans(line, name, value, t, rest);
      NumberParses(value);
    }
    if Classify(line).Accepted? {
      if name, value, typ, rest :| Divides(line, name, value, typ, rest) {
        var t := TypeOfDivided(line, name, value, typ, rest);
        TypedMeans(line, name, value, t, rest);
        NumberParses(value);
      } else {
        UndividedIsBad(line);
      }
    }
  }

  /** Any other line is counted as processed, and as bad, and does nothing else. */
  lemma BadLine(b: Book, config: AggregatorConfig, line: string)
    requires !Fine(line)
    ensures var key := config.name + ".bad_lines_seen";
            var count := Get(b.counters, key, Num(0.0));
            BufferLine(b, config.BadLinesKey(), line)
            == b.(counters := b.counters[key := if count.NotFinite? then NotFinite else Num(count.value + 1.0)],
                  statsdMetrics := b.statsdMetrics["metrics_processed" :=
                                     Get(b.statsdMetrics, "metrics_processed", 0) + 1])
  {
    hide Classify, Fine;
    AcceptedIffFine(line);
  }

  // ---------- printed records ----------

  lemma PrintedDivides(name: string, value: string, t: string)
    requires 0 < |name| <= 1496 && ':' !in name && '\0' !in name
    requires 0 < |value| <= 1496 && '|' !in value && '\0' !in value
    requires t in {"c", "ms", "g", "s"}
    ensures Typed(name + ":" + value + "|" + t, name, value, t, "")
  {
    var line := name + ":" + value + "|" + t;
    assert '\0' !in line;
    assert name + ":" + value + "|" + ("" + t) + "" == line;
    assert Divides(line, name, value, "" + t, "");
  }

  lemma ShownChars(n: nat, places: nat)
    ensures var s := ShowNumber(n, places);
            && s != "" && IsDigit(s[0]) && forall c :: c in s ==> IsDigit(c) || c == '.'
  {
    var digits := PadLeft(NatText(n), places + 1);
    var s := Pointed(digits, places);
    assert ShowNumber(n, places) == s && s[0] == digits[0];
    forall c | c in s
      ensures IsDigit(c) || c == '.'
    {
      assert c in digits || c == '.';
    }
  }

  lemma ShownGauge(b: Book, badLinesKey: string, name: string, value: string, v: real)
    requires 0 < |name| <= 1496 && ':' !in name && '\0' !in name
    requires 0 < |value| <= 1496 && '|' !in value && '\0' !in value && ParseNumber(value) == Some(v)
    ensures BufferLine(b, badLinesKey, name + ":" + value + "|g").gauges
         == b.gauges[name := if value[0] != '+' && value[0] != '-' then v else Get(b.gauges, name, 0.0) + v]
  {
    hide ParseNumber, NumeralText, IsNumeral, Denoted, Typed, BufferLine;
    ParsesIffNumeral(value, v);
    var n :| IsNumeral(n) && NumeralText(n) == value && Denoted(n) == v;
    NumeralSign(n);
    PrintedDivides(name, value, "g");
    assert name + ":" + value + "|" + "g" == name + ":" + value + "|g";
    GaugeLine(b, badLinesKey, name + ":" + value + "|g", name, n, "g", "");
  }

  lemma ShownSigns(n: nat, places: nat)
    ensures var s := ShowNumber(n, places);
            && s != "" && s[0] != '+' && s[0] != '-' && '|' !in s && '\0' !in s
            && ParseNumber("+" + s) == ParseNumber(s)
            && ParseNumber("-" + s) == match ParseNumber(s) case Some(v) => Some(-v) case None => None
  {
    hide ShowNumber, ParseNumber;
    var s := ShowNumber(n, places);
    ShownChars(n, places);
    SignedNumber(s);
    assert '|' in s ==> IsDigit('|');
    assert '\0' in s ==> IsDigit('\0');
  }

  /** A printed decimal sets a gauge; with a plus in front it is added, with a minus taken off. */
  lemma PrintedGauge(b: Book, badLinesKey: string, name: string, n: nat, places: nat)
    requires 0 < |name| <= 1496 && ':' !in name && '\0' !in name && |ShowNumber(n, places)| < 1496
    ensures var text, v, was := ShowNumber(n, places), n as real / PowTen(places), Get(b.gauges, name, 0.0);
            && BufferLine(b, badLinesKey, name + ":" + text + "|g").gauges == b.gauges[name := v]
            && BufferLine(b, badLinesKey, name + ":" + ("+" + text) + "|g").gauges == b.gauges[name := was + v]
            && BufferLine(b, badLinesKey, name + ":" + ("-" + text) + "|g").gauges == b.gauges[name := was - v]
  {
    hide ShowNumber, ParseNumber, BufferLine, PowTen, IsDigit;
    var text, v := ShowNumber(n, places), n as real / PowTen(places);
    ParseShown(n, places);
    ShownSigns(n, places);
    ShownGauge(b, badLinesKey, name, text, v);
    ShownGauge(b, badLinesKey, name, "+" + text, v);
    ShownGauge(b, badLinesKey, name, "-" + text, -v);
  }
}
