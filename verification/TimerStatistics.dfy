/**
 The statistics of one timer: sorting, nearest-rank percentiles, and what each figure means.
 */
module TimerStatistics {
  import opened Amounts
  import opened Arithmetic
  import opened Text

  // ---------- sorting ----------

  ghost predicate Ascending(s: seq<real>) {
    forall i, j :: 0 <= i <= j < |s| ==> s[i] <= s[j]
  }

  function Insert(s: seq<real>, x: real): seq<real> {
    if s == [] || s[|s| - 1] <= x then s + [x] else Insert(s[..|s| - 1], x) + [s[|s| - 1]]
  }

  lemma AppendLargest(r: seq<real>, last: real)
    requires Ascending(r) && ((forall v :: v in multiset(r) ==> v <= last) || r == [] || r[|r| - 1] <= last)
    ensures Ascending(r + [last])
  {
    assert forall i :: 0 <= i < |r| ==> r[i] in multiset(r);
  }

  lemma AscendingFront(s: seq<real>)
    requires Ascending(s) && s != []
    ensures Ascending(s[..|s| - 1]) && forall v :: v in multiset(s) ==> v <= s[|s| - 1]
  {
  }

  lemma {:induction false} InsertAscending(s: seq<real>, x: real)
    requires Ascending(s)
    ensures Ascending(Insert(s, x)) && multiset(Insert(s, x)) == multiset(s) + multiset{x}
    ensures |Insert(s, x)| == |s| + 1
  {
    hide Ascending;
    if s == [] || s[|s| - 1] <= x {
      AppendLargest(s, x);
    } else {
      var front, last := s[..|s| - 1], s[|s| - 1];
      AscendingFront(s);
      InsertAscending(front, x);
      assert s == front + [last];
      assert forall v :: v in multiset(Insert(front, x)) ==> v in multiset(s) || v == x;
      AppendLargest(Insert(front, x), last);
    }
  }

  function Sort(s: seq<real>): (r: seq<real>)
    ensures Ascending(r) && multiset(r) == multiset(s) && |r| == |s|
  {
    if s == [] then []
    else
      InsertAscending(Sort(s[..|s| - 1]), s[|s| - 1]);
      assert s == s[..|s| - 1] + [s[|s| - 1]];
      Insert(Sort(s[..|s| - 1]), s[|s| - 1])
  }

  lemma FrontMultiset(a: seq<real>)
    requires a != []
    ensures multiset(a[..|a| - 1]) == multiset(a) - multiset{a[|a| - 1]}
  {
    assert a == a[..|a| - 1] + [a[|a| - 1]];
  }

  lemma SameLast(a: seq<real>, b: seq<real>)
    requires Ascending(a) && Ascending(b) && multiset(a) == multiset(b) && a != [] && b != []
    ensures a[|a| - 1] == b[|b| - 1]
  {
    AscendingFront(a);
    AscendingFront(b);
    assert a[|a| - 1] in multiset(b) && b[|b| - 1] in multiset(a);
  }

  lemma SameFronts(a: seq<real>, b: seq<real>)
    requires Ascending(a) && Ascending(b) && multiset(a) == multiset(b) && a != [] && b != []
    ensures Ascending(a[..|a| - 1]) && Ascending(b[..|b| - 1])
    ensures multiset(a[..|a| - 1]) == multiset(b[..|b| - 1])
  {
    SameLast(a, b);
    FrontMultiset(a);
    FrontMultiset(b);
  }

  /** A collection of values has only one ascending order. */
  lemma {:induction false} AscendingUnique(a: seq<real>, b: seq<real>)
    requires Ascending(a) && Ascending(b) && multiset(a) == multiset(b)
    ensures a == b
    decreases |a|
  {
    hide Ascending;
    assert |a| == |multiset(a)| == |multiset(b)| == |b|;
    if a != [] {
      SameLast(a, b);
      SameFronts(a, b);
      AscendingUnique(a[..|a| - 1], b[..|b| - 1]);
      assert a == a[..|a| - 1] + [a[|a| - 1]] && b == b[..|b| - 1] + [b[|b| - 1]];
    }
  }

  lemma SortPermutation(a: seq<real>, b: seq<real>)
    requires multiset(a) == multiset(b)
    ensures Sort(a) == Sort(b)
  {
    AscendingUnique(Sort(a), Sort(b));
  }

  // ---------- the figures ----------

  function SumOf(s: seq<real>): real {
    if s == [] then 0.0 else SumOf(s[..|s| - 1]) + s[|s| - 1]
  }

  /**
   How many of so many samples a percentage covers. The code rounds `pct / 100 * count` in doubles;
   all that matters is that the result is a nearest whole number, whichever way a tie goes.
   */
  type Threshold = (nat, nat) -> nat

  ghost predicate NearestRank(threshold: Threshold) {
    forall p: nat, n: nat :: p <= 100 ==> -50 <= 100 * threshold(p, n) - p * n <= 50
  }

  function NumInThreshold(threshold: Threshold, p: int, count: nat): nat {
    threshold(Abs(p), count)
  }

  /** `%g` of a whole number of at most three digits, with any point made an underscore. */
  function PercentileName(p: int): string {
    NatText(Abs(p))
  }

  /** The name is the numeral of the percentage, without its sign and without leading zeros. */
  lemma PercentileNameMeans(p: int)
    requires -100 <= p <= 100
    ensures var name, n := PercentileName(p), if p < 0 then -p else p;
            && 0 < |name| <= 3 && AllDigits(name) && DigitsValue(name) == n
            && (|name| > 1 ==> name[0] != '0') && (|name| == 1 <==> n < 10) && (|name| == 3 <==> n == 100)
  {
    var n := if p < 0 then -p else p;
    if n >= 10 {
      assert NatText(n) == NatText(n / 10) + [DigitChar(n % 10)];
      if n == 100 {
        assert NatText(10) == NatText(1) + [DigitChar(0)];
      }
    }
  }

  /** The entries one percentile adds; none if it covers no sample of several. */
  function PercentileEntries(threshold: Threshold, sorted: seq<real>, p: int): map<string, Stat>
    requires NearestRank(threshold)
    requires sorted != [] && Abs(p) <= 100
  {
    var n := |sorted|;
    var k := if n > 1 then NumInThreshold(threshold, p, n) else 0;
    if n > 1 && k == 0 then map[]
    else
      ThresholdInRange(threshold, p, n);
      var name := PercentileName(p);
      map["upper_" + name := Num(if n > 1 then sorted[k - 1] else sorted[0]),
          "count_" + name := Num(k as real),
          "sum_" + name := Num(SumOf(sorted[..k])),
          "mean_" + name := Quotient(SumOf(sorted[..k]), k as real)]
  }

  function AllPercentileEntries(threshold: Threshold, sorted: seq<real>, percentiles: seq<int>): map<string, Stat>
    requires NearestRank(threshold)
    requires sorted != [] && forall p :: p in percentiles ==> Abs(p) <= 100
  {
    if percentiles == [] then map[]
    else AllPercentileEntries(threshold, sorted, percentiles[..|percentiles| - 1])
         + PercentileEntries(threshold, sorted, percentiles[|percentiles| - 1])
  }

  function WholeSetEntries(sorted: seq<real>, timerCount: Stat): map<string, Stat>
    requires sorted != []
  {
    map["upper" := Num(sorted[|sorted| - 1]),
        "lower" := Num(sorted[0]),
        "count" := timerCount,
        "mean" := Num(SumOf(sorted) / |sorted| as real)]
  }

  function TimerEntries(threshold: Threshold, values: seq<real>, timerCount: Stat, percentiles: seq<int>):
      map<string, Stat>
    requires NearestRank(threshold)
    requires values != [] && forall p :: p in percentiles ==> Abs(p) <= 100
  {
    AllPercentileEntries(threshold, Sort(values), percentiles) + WholeSetEntries(Sort(values), timerCount)
  }

  /** A percentile never covers more samples than there are, and misses its share by at most half. */
  lemma ThresholdInRange(threshold: Threshold, p: int, n: nat)
    requires NearestRank(threshold)
    requires Abs(p) <= 100
    ensures NumInThreshold(threshold, p, n) <= n
    ensures -50 <= 100 * NumInThreshold(threshold, p, n) - Abs(p) * n <= 50
    ensures Abs(p) == 100 ==> NumInThreshold(threshold, p, n) == n
  {
    MulMonotone(Abs(p), 100, n);
  }

  method SumFirst(values: seq<real>, n: nat) returns (sum: real)
    requires n <= |values|
    ensures sum == SumOf(values[..n])
  {
    sum := 0.0;
    for i := 0 to n
      invariant sum == SumOf(values[..i])
    {
      assert values[..i + 1][..i] == values[..i];
      sum := sum + values[i];
    }
  }

  /**
   One round of the percentile loop. `boundary` is left over from the round before; it only shows
   when there is a single sample, and then it is still the maximum.
   */
  method AddPercentile(threshold: Threshold, values: seq<real>, p: int, data: map<string, Stat>, boundary: real)
      returns (newData: map<string, Stat>, newBoundary: real)
    requires NearestRank(threshold)
    requires values != [] && Abs(p) <= 100
    requires |values| == 1 ==> boundary == values[0]
    ensures newData == data + PercentileEntries(threshold, values, p)
    ensures |values| == 1 ==> newBoundary == boundary
  {
    newData, newBoundary := data, boundary;
    var count := |values|;
    var pct := if p < 0 then -p else p;
    var numInThreshold := 0;
    ThresholdInRange(threshold, p, count);
    if count > 1 {
      numInThreshold := threshold(pct, count);
      if 0 == numInThreshold {
        return;
      }
      newBoundary := values[numInThreshold - 1];
    }
    var pctSum := SumFirst(values, numInThreshold);
    var pctMean := Quotient(pctSum, numInThreshold as real);
    var name := PercentileName(pct);
    newData := newData["upper_" + name := Num(newBoundary)]
                      ["count_" + name := Num(numInThreshold as real)]
                      ["sum_" + name := Num(pctSum)]
                      ["mean_" + name := pctMean];
  }

  /** The figures of one timer, computed by the original's loops over its sorted values. */
  method Summarise(threshold: Threshold, timer: seq<real>, timerCount: Stat, percentiles: seq<int>)
      returns (data: map<string, Stat>)
    requires NearestRank(threshold)
    requires timer != [] && forall p :: p in percentiles ==> Abs(p) <= 100
    ensures data == TimerEntries(threshold, timer, timerCount, percentiles)
  {
    hide PercentileEntries, Sort, SumOf, Ascending;
    data := map[];
    var values := Sort(timer);
    var count := |values|;
    var min, max := values[0], values[count - 1];
    var sum := SumFirst(values, count);
    assert values[..count] == values;
    var mean := sum / count as real;
    var thresholdBoundary := max;
    for t := 0 to |percentiles|
      invariant data == AllPercentileEntries(threshold, values, percentiles[..t])
      invariant count == 1 ==> thresholdBoundary == max
    {
      assert percentiles[..t + 1][..t] == percentiles[..t];
      assert percentiles[t] in percentiles;
      data, thresholdBoundary := AddPercentile(threshold, values, percentiles[t], data, thresholdBoundary);
    }
    assert percentiles[..|percentiles|] == percentiles;
    data := data["upper" := Num(max)]["lower" := Num(min)]["count" := timerCount]["mean" := Num(mean)];
  }
}
