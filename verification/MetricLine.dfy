/**
 The syntax of a metric line, NAME:VALUE|TYPE with an optional |@RATE: the bounded scan, the
 classification of what it found, and the printer both of them undo.
 */
module MetricLine {
  import opened Collections
  import opened Text
  import opened Decimal

  const TOKEN_LIMIT: nat := 1496
  const TYPE_LIMIT: nat := 2

  // ---------- scanning ----------

  /** The length of a `%<limit>[^stop]` match: the run of characters other than `stop`. */
  function Run(s: string, stop: char, limit: nat): (n: nat)
    ensures n <= |s| && n <= limit && stop !in s[..n]
    ensures n == limit || n == |s| || s[n] == stop
  {
    if s == "" || limit == 0 || s[0] == stop then 0
    else
      var n := Run(s[1..], stop, limit - 1);
      assert s[..n + 1] == [s[0]] + s[1..][..n];
      n + 1
  }

  /** What the scan leaves behind; a token it did not reach stays empty, the rate stays 1. */
  datatype Scan = Scan(name: string, value: string, typ: string, rate: real)

  /** The `|@%lf` at the end of the format. */
  function ScanRate(s: string): real {
    if |s| < 2 || s[0] != '|' || s[1] != '@' then 1.0
    else
      match ScanNumber(SkipSpaces(s[2..]))
      case Some(n) => n.value
      case None => 1.0
  }

  /** The `%2[^|]` and what follows it. */
  function ScanType(name: string, value: string, s: string): Scan {
    var n := Run(s, '|', TYPE_LIMIT);
    if n == 0 then Scan(name, value, "", 1.0) else Scan(name, value, s[..n], ScanRate(s[n..]))
  }

  function ScanValue(name: string, s: string): Scan {
    var n := Run(s, '|', TOKEN_LIMIT);
    if n == 0 then Scan(name, "", "", 1.0)
    else if n == |s| || s[n] != '|' then Scan(name, s[..n], "", 1.0)
    else ScanType(name, s[..n], s[n + 1..])
  }

  function ScanLine(line: string): Scan {
    var s := CStr(line);
    var n := Run(s, ':', TOKEN_LIMIT);
    if n == 0 then Scan("", "", "", 1.0)
    else if n == |s| || s[n] != ':' then Scan(s[..n], "", "", 1.0)
    else ScanValue(s[..n], s[n + 1..])
  }

  // ---------- classification ----------

  datatype Kind = Counter | Timer | Gauge | Unique

  datatype Parsed =
    | Bad
    | Accepted(kind: Kind, name: string, text: string, value: real, rate: real, delta: bool)

  function TrimSpaces(s: string): string {
    if s != "" && s[0] == ' ' then TrimSpaces(s[1..]) else s
  }

  /** The character after the first colon, as read from the C string; NUL past its end. */
  function CharAfterColon(line: string): char {
    var i := IndexOf(line, ':') + 1;
    if i < |line| then line[i] else '\0'
  }

  function Numeric(kind: Kind, scan: Scan, line: string): Parsed {
    match ParseNumber(scan.value)
    case None => Bad
    case Some(v) =>
      var c := CharAfterColon(line);
      Accepted(kind, scan.name, scan.value, v, scan.rate, kind == Gauge && (c == '+' || c == '-'))
  }

  /** Trailing characters of a type are ignored; an unknown type counts as a counter. */
  function Classify(line: string): Parsed {
    var scan := ScanLine(line);
    var typ := TrimSpaces(scan.typ);
    if typ == "" then Bad
    else if "ms" <= typ then Numeric(Timer, scan, line)
    else if "c" <= typ then Numeric(Counter, scan, line)
    else if "g" <= typ then Numeric(Gauge, scan, line)
    else if "s" <= typ then Accepted(Unique, scan.name, scan.value, 0.0, scan.rate, false)
    else Numeric(Counter, scan, line)
  }

  // ---------- the shape of accepted lines ----------

  /** The name a line is routed by: everything before its first colon. */
  function RoutingPrefix(line: string): string {
    var i := IndexOf(line, ':');
    if i == -1 then line else line[..i]
  }

  lemma SplitName(line: string) returns (name: string, rest: string)
    requires ScanLine(line).typ != ""
    ensures CStr(line) == name + (":" + rest) && 0 < |name| <= TOKEN_LIMIT && ':' !in name
    ensures ScanLine(line) == ScanValue(name, rest)
  {
    hide ScanValue, Run;
    var s := CStr(line);
    var n := Run(s, ':', TOKEN_LIMIT);
    name, rest := s[..n], s[n + 1..];
    assert s == s[..n] + ([s[n]] + s[n + 1..]);
  }

  lemma SplitValue(name: string, s: string) returns (value: string, rest: string)
    requires ScanValue(name, s).typ != ""
    ensures s == value + ("|" + rest) && 0 < |value| <= TOKEN_LIMIT && '|' !in value
    ensures ScanValue(name, s) == ScanType(name, value, rest)
  {
    hide ScanType, Run;
    var n := Run(s, '|', TOKEN_LIMIT);
    value, rest := s[..n], s[n + 1..];
    assert s == s[..n] + ([s[n]] + s[n + 1..]);
  }

  lemma SplitType(name: string, value: string, s: string)
    requires ScanType(name, value, s).typ != ""
    ensures var scan := ScanType(name, value, s);
            scan.typ <= s && |scan.typ| <= TYPE_LIMIT && scan.name == name && scan.value == value
  {
    hide ScanRate, Run;
  }

  /** A scan that reaches the type has read a name and a value, each of them whole. */
  lemma ScannedTokens(line: string)
    requires ScanLine(line).typ != ""
    ensures var scan := ScanLine(line);
            && 0 < |scan.name| <= TOKEN_LIMIT && ':' !in scan.name
            && 0 < |scan.value| <= TOKEN_LIMIT && '|' !in scan.value
            && 0 < |scan.typ| <= TYPE_LIMIT
            && scan.name + ":" + scan.value + "|" + scan.typ <= CStr(line)
  {
    hide *;
    var name, rest := SplitName(line);
    var value, last := SplitValue(name, rest);
    SplitType(name, value, last);
    var typ := ScanLine(line).typ;
    assert last == typ + last[|typ|..];
    assert CStr(line) == name + ":" + value + "|" + typ + last[|typ|..];
  }

  lemma NumericFields(kind: Kind, scan: Scan, line: string)
    requires Numeric(kind, scan, line).Accepted?
    ensures var p, c := Numeric(kind, scan, line), CharAfterColon(line);
            && p.kind == kind && p.name == scan.name && p.text == scan.value
            && ParseNumber(p.text) == Some(p.value)
            && (p.delta <==> kind == Gauge && (c == '+' || c == '-'))
  {
  }

  lemma AcceptedFields(line: string)
    requires Classify(line).Accepted?
    ensures var p, scan, c := Classify(line), ScanLine(line), CharAfterColon(line);
            && scan.typ != "" && p.name == scan.name && p.text == scan.value
            && (p.delta <==> p.kind == Gauge && (c == '+' || c == '-'))
            && (p.kind != Unique ==> ParseNumber(p.text) == Some(p.value))
  {
    hide Numeric, ScanLine, ParseNumber;
    var scan := ScanLine(line);
    forall kind: Kind | Numeric(kind, scan, line).Accepted?
      ensures var p, c := Numeric(kind, scan, line), CharAfterColon(line);
              && p.kind == kind && p.name == scan.name && p.text == scan.value
              && ParseNumber(p.text) == Some(p.value)
              && (p.delta <==> kind == Gauge && (c == '+' || c == '-'))
    {
      NumericFields(kind, scan, line);
    }
  }

  /**
   An accepted line carries its name up to the first colon, so the consumer and the ledger agree on
   it, and its value right after. The sign test looks at the first character of that value.
   */
  lemma AcceptedShape(line: string)
    requires Classify(line).Accepted?
    ensures var p := Classify(line);
            && p.name != "" && |p.name| <= TOKEN_LIMIT
            && p.name == RoutingPrefix(line) && ':' in line
            && p.text != "" && |p.text| <= TOKEN_LIMIT && '|' !in p.text
            && p.name + ":" + p.text + "|" <= line
            && CharAfterColon(line) == p.text[0]
            && (p.delta <==> p.kind == Gauge && HasSign(p.text))
            && (p.kind != Unique ==> ParseNumber(p.text) == Some(p.value))
  {
    hide Classify, ScanLine, ParseNumber;
    AcceptedFields(line);
    var scan := ScanLine(line);
    ScannedTokens(line);
    var head := scan.name + ":" + scan.value + "|";
    PrefixOf(head, scan.typ, CStr(line), line);
    PrefixFacts(head, line, scan.name, scan.value);
    IndexOfUnique(line, ':', |scan.name|);
  }

  lemma PrefixOf(head: string, more: string, s: string, line: string)
    requires head + more <= s <= line
    ensures head <= line
  {
    assert head <= head + more;
  }

  lemma PrefixFacts(head: string, line: string, name: string, value: string)
    requires head <= line && head == name + ":" + value + "|" && value != ""
    ensures |name| + 1 < |line| && line[..|name|] == name && line[|name|] == ':' && line[|name| + 1] == value[0]
  {
    assert forall i :: 0 <= i < |head| ==> head[i] == line[i];
    assert head[|name| + 1] == value[0];
  }

  // ---------- printing ----------

  function TypeText(kind: Kind): string {
    match kind
    case Counter => "c"
    case Timer => "ms"
    case Gauge => "g"
    case Unique => "s"
  }

  function PrintLine(name: string, value: string, kind: Kind, rate: Option<string>): string {
    name + ":" + value + "|" + TypeText(kind) + if rate.Some? then "|@" + rate.value else ""
  }

  lemma {:induction false} RunOf(token: string, stop: char, rest: string, limit: nat)
    requires stop !in token && |token| <= limit
    requires rest == "" || rest[0] == stop || |token| == limit
    ensures Run(token + rest, stop, limit) == |token|
  {
    if token == "" {
      assert token + rest == rest;
    } else {
      assert (token + rest)[1..] == token[1..] + rest;
      RunOf(token[1..], stop, rest, limit - 1);
    }
  }

  /** The rate texts that are one number from end to end. */
  ghost predicate IsRateText(text: string, rate: real) {
    text != "" && !IsSpace(text[0]) && ScanNumber(text) == Some(Number(rate, |text|))
  }

  lemma ScanPrintedTail(name: string, value: string, kind: Kind, rate: Option<string>, r: real)
    requires match rate case None => r == 1.0 case Some(text) => IsRateText(text, r)
    ensures ScanType(name, value, TypeText(kind) + if rate.Some? then "|@" + rate.value else "")
         == Scan(name, value, TypeText(kind), r)
  {
    var tail := if rate.Some? then "|@" + rate.value else "";
    var s := TypeText(kind) + tail;
    RunOf(TypeText(kind), '|', tail, TYPE_LIMIT);
    assert s[..|TypeText(kind)|] == TypeText(kind) && s[|TypeText(kind)|..] == tail;
    if rate.Some? {
      assert tail[2..] == rate.value;
    }
  }

  lemma ScanFirstToken(line: string, s: string, name: string, rest: string)
    requires s == CStr(line) && s == name + (":" + rest) && name != "" && Run(s, ':', TOKEN_LIMIT) == |name|
    ensures ScanLine(line) == ScanValue(name, rest)
  {
    hide Run, ScanValue, CStr;
    assert s[..|name|] == name && s[|name| + 1..] == rest;
  }

  lemma ScanTwoTokens(line: string, name: string, rest: string, value: string, last: string)
    requires '\0' !in line && name != "" && value != ""
    requires line == name + (":" + rest) && rest == value + ("|" + last)
    requires Run(line, ':', TOKEN_LIMIT) == |name| && Run(rest, '|', TOKEN_LIMIT) == |value|
    ensures ScanLine(line) == ScanType(name, value, last)
  {
    hide Run, ScanValue, ScanLine, ScanType;
    ScanFirstToken(line, line, name, rest);
    ScanSecondToken(name, rest, value, last);
  }

  lemma ScanSecondToken(name: string, rest: string, value: string, last: string)
    requires value != "" && rest == value + ("|" + last) && Run(rest, '|', TOKEN_LIMIT) == |value|
    ensures ScanValue(name, rest) == ScanType(name, value, last)
  {
    hide Run, ScanType;
    assert rest[..|value|] == value && rest[|value| + 1..] == last;
  }

  lemma PrintedParts(name: string, value: string, kind: Kind, rate: Option<string>)
      returns (last: string, rest: string)
    ensures last == TypeText(kind) + if rate.Some? then "|@" + rate.value else ""
    ensures rest == value + ("|" + last)
    ensures PrintLine(name, value, kind, rate) == name + (":" + rest)
  {
    last := TypeText(kind) + if rate.Some? then "|@" + rate.value else "";
    rest := value + ("|" + last);
    hide TypeText;
    assert PrintLine(name, value, kind, rate) == name + (":" + rest);
  }

  lemma ScanPrinted(name: string, value: string, kind: Kind, rate: Option<string>, r: real)
    requires name != "" && ':' !in name && |name| <= TOKEN_LIMIT
    requires value != "" && '|' !in value && |value| <= TOKEN_LIMIT
    requires match rate case None => r == 1.0 case Some(text) => IsRateText(text, r)
    requires '\0' !in PrintLine(name, value, kind, rate)
    ensures ScanLine(PrintLine(name, value, kind, rate)) == Scan(name, value, TypeText(kind), r)
  {
    hide *;
    var last, rest := PrintedParts(name, value, kind, rate);
    ScanPrintedTail(name, value, kind, rate, r);
    RunOf(name, ':', ":" + rest, TOKEN_LIMIT);
    RunOf(value, '|', "|" + last, TOKEN_LIMIT);
    ScanTwoTokens(PrintLine(name, value, kind, rate), name, rest, value, last);
  }

  /** Scanning a printed record recovers exactly that record. */
  lemma PrintedLineRoundTrip(name: string, value: string, kind: Kind, rate: Option<string>, r: real)
    requires name != "" && ':' !in name && |name| <= TOKEN_LIMIT
    requires value != "" && '|' !in value && |value| <= TOKEN_LIMIT
    requires kind != Unique ==> ParseNumber(value).Some?
    requires match rate case None => r == 1.0 case Some(text) => IsRateText(text, r)
    requires '\0' !in PrintLine(name, value, kind, rate)
    ensures Classify(PrintLine(name, value, kind, rate))
         == Accepted(kind, name, value, if kind == Unique then 0.0 else ParseNumber(value).value, r,
                     kind == Gauge && HasSign(value))
  {
    var line := PrintLine(name, value, kind, rate);
    hide PrintLine, ScanLine, ParseNumber, TypeText, TrimSpaces, HasSign;
    ScanPrinted(name, value, kind, rate, r);
    PrintedPrefixes(kind);
    AcceptedShape(line);
  }

  lemma PrintedPrefixes(kind: Kind)
    ensures var typ := TypeText(kind);
            && typ != "" && TrimSpaces(typ) == typ
            && ("ms" <= typ <==> kind == Timer) && ("c" <= typ <==> kind == Counter)
            && ("g" <= typ <==> kind == Gauge) && ("s" <= typ <==> kind == Unique)
  {
    var typ := TypeText(kind);
    assert "ms"[0] == 'm' && "c"[0] == 'c' && "g"[0] == 'g' && "s"[0] == 's';
    assert typ[0] == match kind case Counter => 'c' case Timer => 'm' case Gauge => 'g' case Unique => 's';
  }
}
