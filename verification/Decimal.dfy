/**
 Decimal numerals: the scanner behind `lexical_cast<double>` and `%lf`, over exact numbers, and a
 printer it undoes.
 */
module Decimal {
  import opened Arithmetic
  import opened Collections
  import opened Text

  function PowTen(n: nat): (p: real)
    ensures p > 0.0
  {
    if n == 0 then 1.0 else 10.0 * PowTen(n - 1)
  }

  /** The length of the run of digits at the front. */
  function DigitRun(s: string): (n: nat)
    ensures n <= |s| && AllDigits(s[..n])
    ensures n < |s| ==> !IsDigit(s[n])
  {
    if s == "" || !IsDigit(s[0]) then 0 else 1 + DigitRun(s[1..])
  }

  lemma {:induction false} DigitRunOf(digits: string, rest: string)
    requires AllDigits(digits) && (rest == "" || !IsDigit(rest[0]))
    ensures DigitRun(digits + rest) == |digits|
  {
    if digits == "" {
      assert digits + rest == rest;
    } else {
      assert (digits + rest)[1..] == digits[1..] + rest;
      DigitRunOf(digits[1..], rest);
    }
  }

  datatype Number = Number(value: real, length: nat)

  /** Digits with an optional point among them. */
  function ScanMagnitude(s: string): (r: Option<Number>)
    ensures r.Some? ==> 0 < r.value.length <= |s|
  {
    var whole := DigitRun(s);
    var point := whole < |s| && s[whole] == '.';
    var fraction := if point then DigitRun(s[whole + 1..]) else 0;
    if whole + fraction == 0 then None
    else
      var end := if point then whole + 1 + fraction else whole;
      var digits := if point then s[..whole] + s[whole + 1..][..fraction] else s[..whole];
      Some(Number(DigitsValue(digits) as real / PowTen(fraction), end))
  }

  function HasSign(s: string): bool {
    s != "" && (s[0] == '+' || s[0] == '-')
  }

  /** What an exponent multiplies by, if `s` starts with one; a mark without digits is an error. */
  function ScanExponent(s: string): (r: Option<Number>)
    ensures r.Some? ==> r.value.length <= |s|
  {
    if s == "" || (s[0] != 'e' && s[0] != 'E') then Some(Number(1.0, 0))
    else
      var sign := if HasSign(s[1..]) then 1 else 0;
      var n := DigitRun(s[1 + sign..]);
      if n == 0 then None
      else
        var factor := PowTen(DigitsValue(s[1 + sign..][..n]));
        Some(Number(if s[1] == '-' then 1.0 / factor else factor, 1 + sign + n))
  }

  function Scaled(value: real, factor: real): real {
    value * factor
  }

  /** The longest number at the front of `s`. */
  function ScanNumber(s: string): (r: Option<Number>)
    ensures r.Some? ==> 0 < r.value.length <= |s|
  {
    var sign := if HasSign(s) then 1 else 0;
    match ScanMagnitude(s[sign..])
    case None => None
    case Some(m) =>
      match ScanExponent(s[sign + m.length..])
      case None => None
      case Some(e) =>
        var value := Scaled(m.value, e.value);
        Some(Number(if sign == 1 && s[0] == '-' then -value else value, sign + m.length + e.length))
  }

  /** `lexical_cast<double>`: the whole text has to be one number. */
  function ParseNumber(s: string): Option<real> {
    match ScanNumber(s)
    case Some(n) => if n.length == |s| then Some(n.value) else None
    case None => None
  }

  // ---------- printing ----------

  function Zeros(n: nat): (s: string)
    ensures |s| == n && AllDigits(s)
  {
    seq(n, _ => '0')
  }

  function PadLeft(s: string, width: nat): (r: string)
    requires AllDigits(s)
    ensures AllDigits(r) && |r| >= width
  {
    if |s| >= width then s else Zeros(width - |s|) + s
  }

  lemma {:induction false} LeadingZeros(n: nat, s: string)
    requires AllDigits(s)
    ensures DigitsValue(Zeros(n) + s) == DigitsValue(s)
    decreases n + |s|
  {
    var z := Zeros(n) + s;
    if s != "" {
      assert z[..|z| - 1] == Zeros(n) + s[..|s| - 1];
      LeadingZeros(n, s[..|s| - 1]);
    } else if n > 0 {
      assert z[..|z| - 1] == Zeros(n - 1) + s;
      LeadingZeros(n - 1, s);
    }
  }

  lemma PadValue(s: string, width: nat)
    requires AllDigits(s)
    ensures DigitsValue(PadLeft(s, width)) == DigitsValue(s)
  {
    hide DigitsValue;
    if |s| < width {
      LeadingZeros(width - |s|, s);
    }
  }

  /** The last `places` digits set off by a point. */
  function Pointed(digits: string, places: nat): string
    requires places < |digits|
  {
    if places == 0 then digits
    else digits[..|digits| - places] + "." + digits[|digits| - places..]
  }

  /** The number n / 10^places with exactly that many digits after the point. */
  function ShowNumber(n: int, places: nat): string {
    var text := Pointed(PadLeft(NatText(Abs(n)), places + 1), places);
    if n < 0 then "-" + text else text
  }

  lemma ScanPointed(digits: string, places: nat)
    requires AllDigits(digits) && places < |digits|
    ensures var text := Pointed(digits, places);
            && IsDigit(text[0])
            && ScanMagnitude(text) == Some(Number(DigitsValue(digits) as real / PowTen(places), |text|))
  {
    hide DigitsValue, DigitRun, ScanMagnitude, PowTen;
    if places == 0 {
      ScanWhole(digits);
    } else {
      var split := |digits| - places;
      ScanWithPoint(digits[..split], digits[split..]);
      assert digits == digits[..split] + digits[split..];
    }
  }

  lemma ScanWhole(digits: string)
    requires AllDigits(digits) && digits != ""
    ensures ScanMagnitude(digits) == Some(Number(DigitsValue(digits) as real / PowTen(0), |digits|))
  {
    hide DigitsValue, DigitRun;
    DigitRunOf(digits, "");
    assert digits + "" == digits && digits[..|digits|] == digits;
  }

  lemma ScanPieces(text: string, whole: string, fraction: string)
    requires whole != "" && AllDigits(whole + fraction)
    requires DigitRun(text) == |whole| < |text| && text[|whole|] == '.' && text[..|whole|] == whole
    requires text[|whole| + 1..] == fraction && DigitRun(fraction) == |fraction|
    ensures ScanMagnitude(text)
         == Some(Number(DigitsValue(whole + fraction) as real / PowTen(|fraction|), |whole| + 1 + |fraction|))
  {
    hide DigitsValue, DigitRun, PowTen, AllDigits;
    assert fraction[..|fraction|] == fraction;
  }

  lemma PointSplits(whole: string, fraction: string)
    ensures var text := whole + "." + fraction;
            && text == whole + ("." + fraction)
            && |text| == |whole| + 1 + |fraction|
            && text[|whole|] == '.' && text[..|whole|] == whole && text[|whole| + 1..] == fraction
  {
  }

  lemma ScanWithPoint(whole: string, fraction: string)
    requires AllDigits(whole) && AllDigits(fraction) && AllDigits(whole + fraction) && whole != ""
    ensures ScanMagnitude(whole + "." + fraction)
         == Some(Number(DigitsValue(whole + fraction) as real / PowTen(|fraction|), |whole| + 1 + |fraction|))
  {
    assert !IsDigit('.');
    hide *;
    PointSplits(whole, fraction);
    DigitRunOf(whole, "." + fraction);
    DigitRunOf(fraction, "");
    assert fraction + "" == fraction;
    ScanPieces(whole + "." + fraction, whole, fraction);
  }

  lemma ParseSigned(text: string, v: real)
    requires text != "" && IsDigit(text[0]) && ScanMagnitude(text) == Some(Number(v, |text|))
    ensures ParseNumber(text) == Some(v)
    ensures ParseNumber("-" + text) == Some(-v)
  {
    assert text[0..] == text && text[|text|..] == "";
    var negative := "-" + text;
    assert negative[1..] == text && negative[1 + |text|..] == "";
    assert v * 1.0 == v;
  }

  lemma ShownSign(n: int, places: nat)
    ensures var text := Pointed(PadLeft(NatText(Abs(n)), places + 1), places);
            ShowNumber(n, places) == if n < 0 then "-" + text else text
    ensures n as real == if n < 0 then -(Abs(n) as real) else Abs(n) as real
  {
  }

  lemma ParsePointed(digits: string, places: nat)
    requires AllDigits(digits) && places < |digits|
    ensures var text, value := Pointed(digits, places), DigitsValue(digits) as real / PowTen(places);
            ParseNumber(text) == Some(value) && ParseNumber("-" + text) == Some(-value)
  {
    hide *;
    ScanPointed(digits, places);
    ParseSigned(Pointed(digits, places), DigitsValue(digits) as real / PowTen(places));
  }

  /** Reading back a printed number gives the number. */
  lemma ParseShown(n: int, places: nat)
    ensures ParseNumber(ShowNumber(n, places)) == Some(n as real / PowTen(places))
  {
    hide *;
    var digits := PadLeft(NatText(Abs(n)), places + 1);
    var value := DigitsValue(digits) as real / PowTen(places);
    PadValue(NatText(Abs(n)), places + 1);
    ParsePointed(digits, places);
    NegatedQuotient(Abs(n) as real, PowTen(places));
    ShownSign(n, places);
  }

  lemma NegatedQuotient(a: real, b: real)
    requires b > 0.0
    ensures -(a / b) == (-a) / b
  {
  }
}
