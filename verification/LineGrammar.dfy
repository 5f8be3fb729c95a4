/**
 Which lines a ledger accepts and what it takes them to say, as a grammar: a name, a value, a type
 and what follows, with their separators and the sizes of the buffers they are read into.
 */
module LineGrammar {
  import opened Decimal
  import opened MetricLine
  import opened Numerals
  import opened Text

  /** How a line falls apart: NAME:VALUE|TYPE and a rest, which starts at the end of a short type. */
  ghost predicate Divides(line: string, name: string, value: string, typ: string, rest: string) {
    && CStr(line) == name + ":" + value + "|" + typ + rest
    && 0 < |name| <= 1496 && ':' !in name
    && 0 < |value| <= 1496 && '|' !in value
    && 0 < |typ| <= 2 && '|' !in typ && (|typ| == 2 || rest == "" || rest[0] == '|')
  }

  lemma TypeOf(name: string, value: string, typ: string, rest: string)
    requires 0 < |typ| <= 2 && '|' !in typ && (|typ| == 2 || rest == "" || rest[0] == '|')
    ensures ScanType(name, value, typ + rest) == Scan(name, value, typ, ScanRate(rest))
  {
    hide Run, ScanRate;
    RunOf(typ, '|', rest, TYPE_LIMIT);
    assert (typ + rest)[..|typ|] == typ && (typ + rest)[|typ|..] == rest;
  }

  lemma ValueOfLine(name: string, value: string, last: string)
    requires 0 < |value| <= 1496 && '|' !in value
    ensures ScanValue(name, value + ("|" + last)) == ScanType(name, value, last)
  {
    RunOf(value, '|', "|" + last, TOKEN_LIMIT);
    ScanSecondToken(name, value + ("|" + last), value, last);
  }

  lemma NameOfLine(line: string, name: string, rest: string)
    requires CStr(line) == name + (":" + rest) && 0 < |name| <= 1496 && ':' !in name
    ensures ScanLine(line) == ScanValue(name, rest)
  {
    hide Run, ScanValue, ScanLine, CStr;
    RunOf(name, ':', ":" + rest, TOKEN_LIMIT);
    ScanFirstToken(line, CStr(line), name, rest);
  }

  /** The scan finds the parts. */
  lemma DividedScan(line: string, name: string, value: string, typ: string, rest: string)
    requires Divides(line, name, value, typ, rest)
    ensures ScanLine(line) == Scan(name, value, typ, ScanRate(rest))
  {
    hide ScanLine, ScanValue, ScanType, ScanRate, CStr;
    var last := typ + rest;
    var tail := value + ("|" + last);
    assert name + ":" + value + "|" + typ + rest == name + (":" + tail);
    NameOfLine(line, name, tail);
    ValueOfLine(name, value, last);
    TypeOf(name, value, typ, rest);
  }

  lemma TypeRest(name: string, value: string, s: string) returns (typ: string, rest: string)
    requires ScanType(name, value, s).typ != ""
    ensures s == typ + rest && 0 < |typ| <= 2 && '|' !in typ && (|typ| == 2 || rest == "" || rest[0] == '|')
  {
    hide ScanRate;
    var n := Run(s, '|', TYPE_LIMIT);
    typ, rest := s[..n], s[n..];
    assert rest != "" ==> rest[0] == s[n];
  }

  lemma DivisionOf(line: string) returns (name: string, value: string, typ: string, rest: string)
    requires ScanLine(line).typ != ""
    ensures Divides(line, name, value, typ, rest)
  {
    hide ScanLine, ScanValue, ScanType, CStr;
    var tail, last;
    name, tail := SplitName(line);
    value, last := SplitValue(name, tail);
    typ, rest := TypeRest(name, value, last);
    assert name + ":" + value + "|" + typ + rest == name + (":" + (value + ("|" + (typ + rest))));
  }

  // ---------- what is made of the parts ----------

  lemma TrimmedType(blanks: string, t: string)
    requires (forall c :: c in blanks ==> c == ' ') && (t == "" || t[0] != ' ')
    ensures TrimSpaces(blanks + t) == t
  {
    if blanks == "" {
      assert blanks + t == t;
    } else {
      assert (blanks + t)[1..] == blanks[1..] + t && blanks[0] in blanks;
      assert forall c :: c in blanks[1..] ==> c in blanks;
      TrimmedType(blanks[1..], t);
    }
  }

  lemma FirstOfValue(line: string, name: string, value: string, typ: string, rest: string)
    requires Divides(line, name, value, typ, rest)
    ensures CharAfterColon(line) == value[0]
  {
    hide CStr;
    var s := CStr(line);
    assert s <= line && s[|name|] == ':' && s[..|name|] == name && s[|name| + 1] == value[0];
    assert line[..|name|] == s[..|name|];
    IndexOfUnique(line, ':', |name|);
  }

  /**
   What a ledger takes the line to say. The type may be padded with blanks in front; `ms`, or a first
   letter of `g` or `s`, decides the kind, and everything else counts. A gauge line changes the gauge
   if its value is written with a sign.
   */
  lemma DividedMeans(line: string, name: string, value: string, blanks: string, t: string, rest: string)
    requires Divides(line, name, value, blanks + t, rest)
    requires (forall c :: c in blanks ==> c == ' ') && (t == "" || t[0] != ' ')
    ensures var number, rate, signed := ParseNumber(value), ScanRate(rest), value[0] == '+' || value[0] == '-';
            Classify(line)
            == if t == "" then Bad
               else if t[0] == 's' then Accepted(Unique, name, value, 0.0, rate, false)
               else if number.None? then Bad
               else if t == "ms" then Accepted(Timer, name, value, number.value, rate, false)
               else if t[0] == 'g' then Accepted(Gauge, name, value, number.value, rate, signed)
               else Accepted(Counter, name, value, number.value, rate, false)
  {
    hide ScanLine, ScanRate, ParseNumber, CStr;
    DividedScan(line, name, value, blanks + t, rest);
    TrimmedType(blanks, t);
    FirstOfValue(line, name, value, blanks + t, rest);
    hide Divides, TrimSpaces, CharAfterColon;
    KindOfType(t);
  }

  lemma KindOfType(t: string)
    requires |t| <= 2
    ensures ("ms" <= t <==> t == "ms") && ("c" <= t <==> t != "" && t[0] == 'c')
    ensures ("g" <= t <==> t != "" && t[0] == 'g') && ("s" <= t <==> t != "" && t[0] == 's')
  {
  }

  /** A line that does not fall apart like that is bad. */
  lemma UndividedIsBad(line: string)
    requires forall name, value, typ, rest :: !Divides(line, name, value, typ, rest)
    ensures Classify(line) == Bad
  {
    hide ScanLine;
    if ScanLine(line).typ != "" {
      var name, value, typ, rest := DivisionOf(line);
    }
  }

  // ---------- the sample rate ----------

  lemma {:induction false} SkippedSpaces(spaces: string, s: string)
    requires (forall c :: c in spaces ==> IsSpace(c)) && (s == "" || !IsSpace(s[0]))
    ensures SkipSpaces(spaces + s) == s
  {
    if spaces == "" {
      assert spaces + s == s;
    } else {
      assert (spaces + s)[1..] == spaces[1..] + s && spaces[0] in spaces;
      SkippedSpaces(spaces[1..], s);
    }
  }

  lemma NumeralStart(n: Numeral, tail: string)
    requires IsNumeral(n)
    ensures var s := NumeralText(n) + tail; s != "" && !IsSpace(s[0])
  {
    var s := NumeralText(n) + tail;
    assert s[0] == if n.sign != "" then n.sign[0] else if n.whole != "" then n.whole[0] else '.';
  }

  /** A numeral after `|@`, with white space allowed before it, is the rate. */
  lemma RateRead(spaces: string, n: Numeral, tail: string)
    requires (forall c :: c in spaces ==> IsSpace(c)) && IsNumeral(n) && Stops(n, tail)
    ensures ScanRate("|@" + (spaces + (NumeralText(n) + tail))) == Denoted(n)
  {
    NumeralStart(n, tail);
    NumeralScans(n, tail);
    hide IsNumeral, Stops, NumeralText, Denoted, ScanNumber, IsSpace;
    SkippedSpaces(spaces, NumeralText(n) + tail);
    var rest := "|@" + (spaces + (NumeralText(n) + tail));
    assert rest[2..] == spaces + (NumeralText(n) + tail);
  }

  /** Nothing else is: a rate other than 1 was written so. */
  lemma RateWritten(rest: string) returns (spaces: string, n: Numeral, tail: string)
    requires ScanRate(rest) != 1.0
    ensures (forall c :: c in spaces ==> IsSpace(c)) && IsNumeral(n) && Stops(n, tail)
    ensures rest == "|@" + (spaces + (NumeralText(n) + tail)) && ScanRate(rest) == Denoted(n)
  {
    hide ScanNumber, NumeralText, IsNumeral, Stops, Denoted, SkipSpaces, IsSpace;
    spaces := SpacesBefore(rest[2..]);
    var s := SkipSpaces(rest[2..]);
    n, tail := NumeralOf(s);
    NumeralScans(n, tail);
    assert rest == "|@" + rest[2..];
  }

  lemma {:induction false} SpacesBefore(s: string) returns (spaces: string)
    ensures (forall c :: c in spaces ==> IsSpace(c)) && s == spaces + SkipSpaces(s)
  {
    if s != "" && IsSpace(s[0]) {
      spaces := SpacesBefore(s[1..]);
      spaces := [s[0]] + spaces;
      assert s == [s[0]] + s[1..];
    } else {
      spaces := "";
    }
  }
}
