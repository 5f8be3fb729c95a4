/**
 What a decimal numeral is, said as a grammar: a sign, digits with an optional point among them, and
 an optional exponent. The number parser accepts exactly these and gives them the value they denote.
 */
module Numerals {
  import opened Collections
  import opened Decimal
  import opened Text

  /** The parts of a numeral, in the order they are written. */
  datatype Numeral = Numeral(sign: string, whole: string, point: string, fraction: string, power: Power)

  datatype Power = NoPower | Power(mark: char, sign: string, digits: string)

  predicate IsSign(s: string) {
    s == "" || s == "+" || s == "-"
  }

  predicate IsPower(p: Power) {
    p.Power? ==> (p.mark == 'e' || p.mark == 'E') && IsSign(p.sign) && p.digits != "" && AllDigits(p.digits)
  }

  predicate IsNumeral(n: Numeral) {
    && IsSign(n.sign) && AllDigits(n.whole) && AllDigits(n.fraction) && n.whole + n.fraction != ""
    && (n.point == "." || (n.point == "" && n.fraction == ""))
    && IsPower(n.power)
  }

  function PowerText(p: Power): string {
    if p.NoPower? then "" else [p.mark] + p.sign + p.digits
  }

  function MagnitudeText(n: Numeral): string {
    n.whole + n.point + n.fraction
  }

  function NumeralText(n: Numeral): string {
    n.sign + MagnitudeText(n) + PowerText(n.power)
  }

  /** 10 to the number written after the mark. */
  function Scale(p: Power): real
    requires IsPower(p)
  {
    if p.NoPower? then 1.0
    else if p.sign == "-" then 1.0 / PowTen(DigitsValue(p.digits))
    else PowTen(DigitsValue(p.digits))
  }

  function Digits(n: Numeral): real
    requires IsNumeral(n)
  {
    DigitsValue(n.whole + n.fraction) as real / PowTen(|n.fraction|)
  }

  function Magnitude(n: Numeral): real
    requires IsNumeral(n)
  {
    Digits(n) * Scale(n.power)
  }

  function Denoted(n: Numeral): real
    requires IsNumeral(n)
  {
    if n.sign == "-" then -Magnitude(n) else Magnitude(n)
  }

  // ---------- digits and powers of ten ----------

  /** Digits in front of others count as many tens as there are others. */
  lemma {:induction false} DigitsAppend(a: string, b: string, x: real, power: real)
    requires AllDigits(a) && AllDigits(b) && x == DigitsValue(a) as real && power == PowTen(|b|)
    ensures AllDigits(a + b) && DigitsValue(a + b) as real == x * power + DigitsValue(b) as real
  {
    if b == "" {
      assert a + b == a;
      TimesOne(x, power);
    } else {
      var front, last, tenth := b[..|b| - 1], b[|b| - 1], PowTen(|b| - 1);
      hide DigitsValue, DigitOf;
      DigitsAppend(a, front, x, tenth);
      assert b == front + [last] && a + b == a + front + [last];
      DigitsSnoc(front, last);
      DigitsSnoc(a + front, last);
      OneDigitMore(x, tenth, power, DigitsValue(a + front), DigitsValue(front), DigitOf(last));
    }
  }

  lemma TimesOne(x: real, one: real)
    requires one == 1.0
    ensures x * one == x
  {
  }

  lemma DigitsSnoc(s: string, c: char)
    requires AllDigits(s) && IsDigit(c)
    ensures AllDigits(s + [c]) && DigitsValue(s + [c]) == 10 * DigitsValue(s) + DigitOf(c)
  {
    assert (s + [c])[..|s|] == s;
  }

  lemma OneDigitMore(x: real, power: real, next: real, n: nat, m: nat, d: nat)
    requires n as real == x * power + m as real && next == 10.0 * power
    ensures (10 * n + d) as real == x * next + (10 * m + d) as real
  {
    var product := x * power;
    assert x * next == 10.0 * product;
  }

  /** A digit stands for its place in the row from '0'. */
  lemma DigitAlone(c: char)
    requires IsDigit(c)
    ensures DigitsValue([c]) == c as int - '0' as int
    ensures '0' <= c <= '9'
  {
  }

  /** PowTen is the power of ten: ten for one, and products for sums. */
  lemma {:induction false} PowTenMeans(m: nat, n: nat)
    ensures PowTen(0) == 1.0 && PowTen(1) == 10.0 && PowTen(m + n) == PowTen(m) * PowTen(n)
  {
    if m > 0 {
      PowTenMeans(m - 1, n);
    }
  }

  // ---------- a numeral is parsed to what it denotes ----------

  predicate NoDigit(rest: string) {
    rest == "" || !IsDigit(rest[0])
  }

  /** What may follow the digits of a numeral without becoming part of them. */
  predicate EndsDigits(n: Numeral, rest: string) {
    NoDigit(rest) && (n.point == "" && rest != "" ==> rest[0] != '.')
  }

  /** What may follow a power, or its absence, likewise. */
  predicate EndsPower(p: Power, rest: string) {
    if p.NoPower? then rest == "" || (rest[0] != 'e' && rest[0] != 'E') else NoDigit(rest)
  }

  /** The text goes on, but the numeral does not. */
  predicate Stops(n: Numeral, rest: string) {
    EndsPower(n.power, rest) && (n.power.NoPower? ==> EndsDigits(n, rest))
  }

  lemma WholeScans(whole: string, rest: string)
    requires AllDigits(whole) && whole != "" && NoDigit(rest) && (rest != "" ==> rest[0] != '.')
    ensures ScanMagnitude(whole + rest) == Some(Number(DigitsValue(whole) as real / PowTen(0), |whole|))
  {
    hide DigitsValue, DigitRun, PowTen, AllDigits;
    DigitRunOf(whole, rest);
    assert (whole + rest)[..|whole|] == whole;
  }

  lemma PointScans(whole: string, fraction: string, rest: string)
    requires AllDigits(whole) && AllDigits(fraction) && AllDigits(whole + fraction) && whole + fraction != ""
    requires NoDigit(rest)
    ensures ScanMagnitude(whole + "." + (fraction + rest))
         == Some(Number(DigitsValue(whole + fraction) as real / PowTen(|fraction|), |whole| + 1 + |fraction|))
  {
    var after := fraction + rest;
    assert !IsDigit('.') && after[..|fraction|] == fraction;
    hide DigitsValue, DigitRun, PowTen, AllDigits, ScanMagnitude, IsDigit;
    PointSplits(whole, after);
    DigitRunOf(whole, "." + after);
    DigitRunOf(fraction, rest);
    ScannedParts(whole + "." + after, whole, fraction, after);
  }

  lemma ScannedParts(s: string, whole: string, fraction: string, after: string)
    requires DigitRun(s) == |whole| < |s| && s[|whole|] == '.' && s[..|whole|] == whole
    requires s[|whole| + 1..] == after && DigitRun(after) == |fraction| <= |after| && after[..|fraction|] == fraction
    requires whole + fraction != "" && AllDigits(whole + fraction)
    ensures ScanMagnitude(s)
         == Some(Number(DigitsValue(whole + fraction) as real / PowTen(|fraction|), |whole| + 1 + |fraction|))
  {
    hide DigitsValue, DigitRun, PowTen, AllDigits;
  }

  lemma MagnitudeScans(n: Numeral, rest: string)
    requires IsNumeral(n) && EndsDigits(n, rest)
    ensures ScanMagnitude(MagnitudeText(n) + rest)
         == Some(Number(Digits(n), |MagnitudeText(n)|))
  {
    hide DigitsValue, DigitRun, PowTen, ScanMagnitude;
    if n.point == "." {
      assert MagnitudeText(n) + rest == n.whole + "." + (n.fraction + rest);
      PointScans(n.whole, n.fraction, rest);
    } else {
      assert n.whole + n.fraction == n.whole && MagnitudeText(n) == n.whole;
      WholeScans(n.whole, rest);
    }
  }

  lemma MarkedExponent(s: string, sign: nat, digits: string)
    requires s != "" && (s[0] == 'e' || s[0] == 'E') && sign == (if HasSign(s[1..]) then 1 else 0)
    requires 1 + sign + |digits| <= |s| && digits != "" && AllDigits(digits)
    requires DigitRun(s[1 + sign..]) == |digits| && s[1 + sign..][..|digits|] == digits
    ensures var factor := PowTen(DigitsValue(digits));
            ScanExponent(s) == Some(Number(if s[1] == '-' then 1.0 / factor else factor, 1 + sign + |digits|))
  {
    hide DigitsValue, DigitRun, PowTen, AllDigits;
  }

  lemma PowerScans(p: Power, rest: string)
    requires IsPower(p) && EndsPower(p, rest)
    ensures ScanExponent(PowerText(p) + rest) == Some(Number(Scale(p), |PowerText(p)|))
  {
    hide DigitsValue, DigitRun, PowTen, ScanExponent;
    var s := PowerText(p) + rest;
    if p.Power? {
      PowerPieces(p, rest);
      DigitRunOf(p.digits, rest);
      hide HasSign, AllDigits;
      MarkedExponent(s, |p.sign|, p.digits);
    } else {
      assert s == rest;
      NoExponent(rest);
    }
  }

  lemma NoExponent(s: string)
    requires s == "" || (s[0] != 'e' && s[0] != 'E')
    ensures ScanExponent(s) == Some(Number(1.0, 0))
  {
  }

  lemma PowerFront(mark: char, sign: string, digits: string, tail: string)
    requires IsSign(sign) && digits != "" && IsDigit(digits[0])
    ensures var s := [mark] + sign + (digits + tail);
            && |sign| == (if HasSign(s[1..]) then 1 else 0) && (s[1] == '-' <==> sign == "-") && s[0] == mark
            && s[1 + |sign|..] == digits + tail
  {
    var s := [mark] + sign + (digits + tail);
    assert s[1] == if sign != "" then sign[0] else digits[0];
  }

  lemma PowerPieces(p: Power, rest: string)
    requires IsPower(p) && p.Power?
    ensures var s, sign := PowerText(p) + rest, |p.sign|;
            && sign == (if HasSign(s[1..]) then 1 else 0) && (s[1] == '-' <==> p.sign == "-") && s[0] == p.mark
            && s[1 + sign..] == p.digits + rest && (p.digits + rest)[..|p.digits|] == p.digits
  {
    assert IsDigit(p.digits[0]);
    hide HasSign, IsDigit, AllDigits;
    assert PowerText(p) + rest == [p.mark] + p.sign + (p.digits + rest);
    PowerFront(p.mark, p.sign, p.digits, rest);
  }

  lemma NumberOfParts(s: string, sign: nat, m: Number, e: Number)
    requires sign == (if HasSign(s) then 1 else 0)
    requires ScanMagnitude(s[sign..]) == Some(m) && sign + m.length <= |s|
    requires ScanExponent(s[sign + m.length..]) == Some(e)
    ensures ScanNumber(s)
         == Some(Number(if sign == 1 && s[0] == '-' then -Scaled(m.value, e.value) else Scaled(m.value, e.value),
                        sign + m.length + e.length))
  {
    hide ScanMagnitude, ScanExponent, Scaled;
  }

  lemma FrontOfText(sign: string, m: string, tail: string)
    requires IsSign(sign) && m != "" && (IsDigit(m[0]) || m[0] == '.')
    ensures var s := sign + m + tail;
            && (HasSign(s) <==> sign != "") && (sign == "-" <==> |sign| == 1 && s[0] == '-') && |sign| <= 1
            && s[|sign|..] == m + tail && s[|sign| + |m|..] == tail
  {
    var s := sign + m + tail;
    assert s[0] == if sign != "" then sign[0] else m[0];
  }

  lemma FrontOfMagnitude(n: Numeral)
    requires IsNumeral(n)
    ensures var m := MagnitudeText(n); m != "" && (IsDigit(m[0]) || m[0] == '.')
  {
    assert MagnitudeText(n)[0] == if n.whole != "" then n.whole[0] else '.';
  }

  lemma TailEnds(n: Numeral, rest: string)
    requires IsNumeral(n) && Stops(n, rest)
    ensures EndsDigits(n, PowerText(n.power) + rest)
  {
    if n.power.NoPower? {
      assert PowerText(n.power) + rest == rest;
    }
  }

  lemma TextParts(n: Numeral, rest: string)
    requires IsNumeral(n) && Stops(n, rest)
    ensures var s, m, p := NumeralText(n) + rest, MagnitudeText(n), PowerText(n.power);
            && (HasSign(s) <==> n.sign != "") && (n.sign == "-" <==> |n.sign| == 1 && s[0] == '-')
            && |n.sign| <= 1 && |NumeralText(n)| == |n.sign| + |m| + |p|
            && |n.sign| + |m| <= |s| && s[|n.sign|..] == m + (p + rest)
            && s[|n.sign| + |m|..] == p + rest && EndsDigits(n, p + rest)
  {
    FrontOfMagnitude(n);
    TailEnds(n, rest);
    var m, p := MagnitudeText(n), PowerText(n.power);
    hide MagnitudeText, PowerText, EndsDigits, HasSign, IsDigit, IsPower, AllDigits, Stops;
    assert NumeralText(n) + rest == n.sign + m + (p + rest);
    FrontOfText(n.sign, m, p + rest);
  }

  lemma MagnitudeScaled(n: Numeral)
    requires IsNumeral(n)
    ensures Magnitude(n) == Scaled(Digits(n), Scale(n.power))
  {
    hide Digits, Scale;
  }

  lemma ReadNumeral(s: string, sign: string, m: string, p: string, tail: string, digits: real, scale: real)
    requires |sign| == (if HasSign(s) then 1 else 0) && |sign| + |m| <= |s|
    requires s[|sign|..] == m + tail && s[|sign| + |m|..] == tail
    requires ScanMagnitude(m + tail) == Some(Number(digits, |m|)) && ScanExponent(tail) == Some(Number(scale, |p|))
    ensures var value := Scaled(digits, scale);
            ScanNumber(s) == Some(Number(if |sign| == 1 && s[0] == '-' then -value else value, |sign| + |m| + |p|))
  {
    hide *;
    NumberOfParts(s, |sign|, Number(digits, |m|), Number(scale, |p|));
  }

  lemma DenotedSign(n: Numeral)
    requires IsNumeral(n)
    ensures Denoted(n) == if n.sign == "-" then -Magnitude(n) else Magnitude(n)
  {
    hide IsNumeral, Magnitude;
  }

  /** At the front of a text a numeral is read as far as it goes, and as the number it denotes. */
  lemma NumeralScans(n: Numeral, rest: string)
    requires IsNumeral(n) && Stops(n, rest)
    ensures ScanNumber(NumeralText(n) + rest) == Some(Number(Denoted(n), |NumeralText(n)|))
  {
    hide MagnitudeText, PowerText, NumeralText, HasSign, Digits, Scale, Denoted, ScanMagnitude, ScanExponent,
      ScanNumber, EndsDigits, EndsPower, AllDigits, IsSign, IsPower, Magnitude, Scaled;
    TextParts(n, rest);
    var s, m, p := NumeralText(n) + rest, MagnitudeText(n), PowerText(n.power);
    MagnitudeScans(n, p + rest);
    PowerScans(n.power, rest);
    MagnitudeScaled(n);
    DenotedSign(n);
    ReadNumeral(s, n.sign, m, p, p + rest, Digits(n), Scale(n.power));
  }

  /** The text of a numeral is a number. */
  lemma NumeralParses(n: Numeral)
    requires IsNumeral(n)
    ensures ParseNumber(NumeralText(n)) == Some(Denoted(n))
  {
    hide ScanNumber, NumeralText, Denoted;
    assert NumeralText(n) + "" == NumeralText(n);
    NumeralScans(n, "");
  }

  // ---------- and nothing else is parsed ----------

  lemma MagnitudeLength(s: string)
    requires ScanMagnitude(s).Some?
    ensures var n := DigitRun(s);
            if n < |s| && s[n] == '.' then
              var m := DigitRun(s[n + 1..]);
              n + m > 0 && ScanMagnitude(s).value.length == n + 1 + m
            else n > 0 && ScanMagnitude(s).value.length == n
  {
    hide DigitsValue, PowTen;
  }

  lemma AfterWhole(whole: string, tail: string)
    requires tail != ""
    ensures var s := whole + tail;
            s[|whole|] == tail[0] && s[|whole| + 1..] == tail[1..] && (tail[0] == '.' ==> tail == "." + tail[1..])
  {
  }

  lemma Glued(whole: string, fraction: string, rest: string)
    ensures whole + ("." + (fraction + rest)) == whole + "." + fraction + rest
    ensures |whole + "." + fraction| == |whole| + 1 + |fraction|
  {
  }

  lemma MagnitudeParts(s: string) returns (whole: string, point: string, fraction: string, rest: string)
    requires ScanMagnitude(s).Some?
    ensures s == whole + point + fraction + rest && |whole + point + fraction| == ScanMagnitude(s).value.length
    ensures AllDigits(whole) && AllDigits(fraction) && whole + fraction != ""
    ensures point == "." || (point == "" && fraction == "")
    ensures NoDigit(rest) && (point == "" && rest != "" ==> rest[0] != '.')
  {
    MagnitudeLength(s);
    var tail;
    whole, tail := RunParts(s);
    if tail != "" {
      AfterWhole(whole, tail);
    }
    if tail != "" && tail[0] == '.' {
      point := ".";
      fraction, rest := RunParts(tail[1..]);
      Glued(whole, fraction, rest);
      assert |whole + fraction| > 0;
      hide *;
    } else {
      point, fraction, rest := "", "", tail;
      assert whole + "" + "" + tail == whole + tail;
    }
  }

  lemma RunParts(s: string) returns (digits: string, rest: string)
    ensures s == digits + rest && |digits| == DigitRun(s) && AllDigits(digits) && NoDigit(rest)
  {
    var n := DigitRun(s);
    digits, rest := s[..n], s[n..];
    assert rest != "" ==> rest[0] == s[n];
  }

  lemma PowerParts(s: string) returns (p: Power, rest: string)
    requires ScanExponent(s).Some?
    ensures IsPower(p) && s == PowerText(p) + rest && |PowerText(p)| == ScanExponent(s).value.length
    ensures EndsPower(p, rest)
  {
    if s == "" || (s[0] != 'e' && s[0] != 'E') {
      p, rest := NoPower, s;
      NoExponent(s);
    } else {
      p, rest := MarkedParts(s);
    }
  }

  lemma MarkedLength(s: string, sign: nat)
    requires ScanExponent(s).Some? && s != "" && (s[0] == 'e' || s[0] == 'E')
    requires sign == (if HasSign(s[1..]) then 1 else 0)
    ensures 1 + sign <= |s| && DigitRun(s[1 + sign..]) > 0
    ensures ScanExponent(s).value.length == 1 + sign + DigitRun(s[1 + sign..])
  {
    hide DigitRun, DigitsValue, PowTen;
  }

  lemma MarkedText(s: string, sign: nat, digits: string, rest: string)
    requires 1 + sign <= |s| && s[1 + sign..] == digits + rest && sign == (if HasSign(s[1..]) then 1 else 0)
    ensures s == [s[0]] + s[1..1 + sign] + digits + rest && IsSign(s[1..1 + sign])
  {
    assert sign == 1 ==> s[1..2] == [s[1]];
    assert s == [s[0]] + s[1..1 + sign] + s[1 + sign..];
  }

  lemma MarkedParts(s: string) returns (p: Power, rest: string)
    requires ScanExponent(s).Some? && s != "" && (s[0] == 'e' || s[0] == 'E')
    ensures p.Power? && IsPower(p) && s == PowerText(p) + rest && EndsPower(p, rest)
    ensures |PowerText(p)| == ScanExponent(s).value.length
  {
    hide DigitRun, AllDigits, ScanExponent, NoDigit, HasSign, IsSign;
    var sign := if HasSign(s[1..]) then 1 else 0;
    MarkedLength(s, sign);
    var digits;
    digits, rest := RunParts(s[1 + sign..]);
    MarkedText(s, sign, digits, rest);
    p := Power(s[0], s[1..1 + sign], digits);
  }

  lemma SignAlone(s: string)
    ensures IsSign("") && (HasSign(s) ==> s != "" && IsSign(s[..1]))
  {
    assert HasSign(s) ==> s[..1] == [s[0]];
  }

  lemma ScannedSign(s: string) returns (sign: nat, m: Number, e: Number)
    requires ScanNumber(s).Some?
    ensures sign <= |s| && sign + m.length <= |s| && sign + m.length + e.length == ScanNumber(s).value.length
    ensures ScanMagnitude(s[sign..]) == Some(m) && ScanExponent(s[sign + m.length..]) == Some(e)
    ensures IsSign(s[..sign])
  {
    SignAlone(s);
    hide ScanMagnitude, ScanExponent, Scaled, HasSign, IsSign;
    sign := if HasSign(s) then 1 else 0;
    m := ScanMagnitude(s[sign..]).value;
    e := ScanExponent(s[sign + m.length..]).value;
  }

  lemma NumeralOf(s: string) returns (n: Numeral, rest: string)
    requires ScanNumber(s).Some?
    ensures IsNumeral(n) && s == NumeralText(n) + rest && Stops(n, rest)
    ensures |NumeralText(n)| == ScanNumber(s).value.length
  {
    hide ScanNumber, ScanMagnitude, ScanExponent, PowerText, HasSign, AllDigits, EndsPower, NoDigit;
    var sign, m, e := ScannedSign(s);
    var whole, point, fraction, after := MagnitudeParts(s[sign..]);
    SameTail(s, sign, whole + point + fraction, after);
    var power;
    power, rest := PowerParts(after);
    n := Numeral(s[..sign], whole, point, fraction, power);
    assert s[..sign] + (whole + point + fraction + after) == s[..sign] + (whole + point + fraction) + after;
    assert NumeralText(n) + rest == s[..sign] + (whole + point + fraction) + (PowerText(power) + rest);
    if power.NoPower? {
      NothingWritten(power, after, rest);
    }
  }

  lemma NothingWritten(p: Power, after: string, rest: string)
    requires p.NoPower? && after == PowerText(p) + rest
    ensures after == rest
  {
  }

  lemma SameTail(s: string, a: nat, middle: string, after: string)
    requires a <= |s| && s[a..] == middle + after
    ensures a + |middle| <= |s| && s[a + |middle|..] == after && s == s[..a] + (middle + after)
  {
    assert s[a + |middle|..] == s[a..][|middle|..];
  }

  /** A number is read off the front of a text if and only if a numeral stands there that does not go on. */
  lemma ScansIffNumeral(s: string, v: real, length: nat)
    ensures ScanNumber(s) == Some(Number(v, length))
       <==> exists n, rest :: IsNumeral(n) && s == NumeralText(n) + rest && Stops(n, rest)
                              && Denoted(n) == v && |NumeralText(n)| == length
  {
    hide ScanNumber, NumeralText, Denoted, IsNumeral, Stops;
    if ScanNumber(s) == Some(Number(v, length)) {
      var n, rest := NumeralOf(s);
      NumeralScans(n, rest);
    }
    if n, rest :| IsNumeral(n) && s == NumeralText(n) + rest && Stops(n, rest)
                  && Denoted(n) == v && |NumeralText(n)| == length {
      NumeralScans(n, rest);
    }
  }

  /** A text is parsed to `v` if and only if it is a numeral that denotes `v`. */
  lemma ParsesIffNumeral(s: string, v: real)
    ensures ParseNumber(s) == Some(v) <==> exists n :: IsNumeral(n) && NumeralText(n) == s && Denoted(n) == v
  {
    hide ScanNumber, NumeralText, Denoted, IsNumeral;
    if ParseNumber(s) == Some(v) {
      var n, rest := NumeralOf(s);
      assert rest == "" && s == NumeralText(n);
      NumeralParses(n);
    }
    if n :| IsNumeral(n) && NumeralText(n) == s && Denoted(n) == v {
      NumeralParses(n);
    }
  }

  // ---------- signs ----------

  /** A plus sign changes nothing, a minus sign negates. */
  lemma SignedNumber(t: string)
    requires t != "" && (IsDigit(t[0]) || t[0] == '.')
    ensures ParseNumber("+" + t) == ParseNumber(t)
    ensures ParseNumber("-" + t)
         == match ParseNumber(t) case Some(v) => Some(-v) case None => None
  {
    hide ScanMagnitude, ScanExponent, Scaled;
    assert ("+" + t)[1..] == t && ("-" + t)[1..] == t && t[0..] == t;
    if ScanMagnitude(t).Some? {
      var k := ScanMagnitude(t).value.length;
      assert ("+" + t)[1 + k..] == t[k..] && ("-" + t)[1 + k..] == t[k..];
    }
  }
}
