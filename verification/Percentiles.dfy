/**
 What the percentile figures of a timer mean, without reference to sorting: the k-th smallest value,
 the least sum of k values, and how the figures are ordered among themselves.
 */
module Percentiles {
  import opened Amounts
  import opened Arithmetic
  import opened Collections
  import opened Text
  import opened TimerStatistics

  // ---------- counting ----------

  ghost function CountOf(s: seq<real>, p: real -> bool): nat {
    |Filter(s, p)|
  }

  lemma CountSplit(s: seq<real>, i: nat, p: real -> bool)
    requires i <= |s|
    ensures CountOf(s, p) == CountOf(s[..i], p) + CountOf(s[i..], p)
  {
    FilterAppend(s[..i], s[i..], p);
    assert s == s[..i] + s[i..];
  }

  lemma {:induction false} FilterLength<T>(s: seq<T>, p: T -> bool)
    ensures |Filter(s, p)| <= |s|
  {
    if s != [] {
      FilterLength(s[..|s| - 1], p);
    }
  }

  lemma {:induction false} CountSubMultiset(t: seq<real>, s: seq<real>, p: real -> bool)
    requires multiset(t) <= multiset(s)
    ensures CountOf(t, p) <= CountOf(s, p)
    decreases |t|
  {
    if t != [] {
      var i := RemoveLast(t, s);
      CountSubMultiset(t[..|t| - 1], s[..i] + s[i + 1..], p);
      FilterWithout(s[..i], s[i], s[i + 1..], p);
      assert s == s[..i] + [s[i]] + s[i + 1..];
    }
  }

  lemma CountPermutation(t: seq<real>, s: seq<real>, p: real -> bool)
    requires multiset(t) == multiset(s)
    ensures CountOf(t, p) == CountOf(s, p)
  {
    CountSubMultiset(t, s, p);
    CountSubMultiset(s, t, p);
  }

  /** In ascending order, fewer than k values lie below the one at k - 1, and k are not above it. */
  lemma RankInSorted(v: seq<real>, k: nat)
    requires Ascending(v) && 0 < k <= |v|
    ensures CountOf(v, x => x < v[k - 1]) < k <= CountOf(v, x => x <= v[k - 1])
  {
    var below, notAbove := x => x < v[k - 1], x => x <= v[k - 1];
    CountSplit(v, k - 1, below);
    FilterLength(v[..k - 1], below);
    var tail, head := v[k - 1..], v[..k];
    assert forall x :: x in tail ==> x >= v[k - 1];
    FilterNone(v[k - 1..], below);
    CountSplit(v, k, notAbove);
    assert forall x :: x in head ==> x <= v[k - 1];
    FilterAll(v[..k], notAbove);
  }

  /** `upper_p` is the k-th smallest of the samples. */
  lemma KthSmallest(values: seq<real>, k: nat)
    requires 0 < k <= |values|
    ensures var u := Sort(values)[k - 1];
            && u in multiset(values)
            && CountOf(values, x => x < u) < k <= CountOf(values, x => x <= u)
  {
    var v := Sort(values);
    var u := v[k - 1];
    assert u in multiset(v);
    RankInSorted(v, k);
    CountPermutation(v, values, x => x < u);
    CountPermutation(v, values, x => x <= u);
  }

  // ---------- least sums ----------

  lemma SumIsTotal(s: seq<real>)
    ensures SumOf(s) == Total(s, x => x)
  {
    if s != [] {
      SumIsTotal(s[..|s| - 1]);
    }
  }

  lemma SumPermutation(s: seq<real>, t: seq<real>)
    requires multiset(s) == multiset(t)
    ensures SumOf(s) == SumOf(t)
  {
    SumIsTotal(s);
    SumIsTotal(t);
    TotalPermutation(s, t, x => x);
  }

  /** The i-th smallest of some of the values is at least the i-th smallest of all of them. */
  lemma LeastPointwise(v: seq<real>, t: seq<real>, i: nat)
    requires Ascending(v) && Ascending(t) && multiset(t) <= multiset(v)
    requires i < |t|
    ensures i < |v| && v[i] <= t[i]
  {
    var u := t[i];
    var notAbove := x => x <= u;
    CountSubMultiset(t, v, notAbove);
    CountSplit(t, i + 1, notAbove);
    var head := t[..i + 1];
    assert forall x :: x in head ==> x <= u;
    FilterAll(t[..i + 1], notAbove);
    FilterLength(v, notAbove);
    if i < |v| && u < v[i] {
      CountSplit(v, i, notAbove);
      FilterLength(v[..i], notAbove);
      var tail := v[i..];
      assert forall x :: x in tail ==> u < x;
      FilterNone(v[i..], notAbove);
    }
  }

  lemma {:induction false} SumPointwise(s: seq<real>, t: seq<real>)
    requires |s| == |t| && forall i :: 0 <= i < |s| ==> s[i] <= t[i]
    ensures SumOf(s) <= SumOf(t)
  {
    if s != [] {
      SumPointwise(s[..|s| - 1], t[..|t| - 1]);
    }
  }

  lemma PrefixSubMultiset<T>(s: seq<T>, k: nat)
    requires k <= |s|
    ensures multiset(s[..k]) <= multiset(s)
  {
    assert s == s[..k] + s[k..];
  }

  lemma PrefixOfSorted(values: seq<real>, k: nat)
    requires k <= |values|
    ensures multiset(Sort(values)[..k]) <= multiset(values)
  {
    hide Sort, Ascending;
    PrefixSubMultiset(Sort(values), k);
  }

  /** `sum_p` is the least sum that k of the samples can have, and some k samples have it. */
  lemma LeastSum(values: seq<real>, k: nat)
    requires k <= |values|
    ensures forall t :: multiset(t) <= multiset(values) && |t| == k ==> SumOf(Sort(values)[..k]) <= SumOf(t)
    ensures exists t :: multiset(t) <= multiset(values) && |t| == k && SumOf(t) == SumOf(Sort(values)[..k])
  {
    var v := Sort(values);
    forall t | multiset(t) <= multiset(values) && |t| == k
      ensures SumOf(v[..k]) <= SumOf(t)
    {
      forall i | 0 <= i < k
        ensures v[..k][i] <= Sort(t)[i]
      {
        LeastPointwise(v, Sort(t), i);
      }
      SumPointwise(v[..k], Sort(t));
      SumPermutation(Sort(t), t);
    }
    PrefixOfSorted(values, k);
    assert |v[..k]| == k && SumOf(v[..k]) == SumOf(Sort(values)[..k]);
  }

  // ---------- means ----------

  ghost function MeanOf(v: seq<real>, k: nat): real
    requires 0 < k <= |v|
  {
    SumOf(v[..k]) / k as real
  }

  lemma TimesCount(a: real, b: real, n: nat)
    requires a <= b
    ensures a * n as real <= b * n as real
  {
  }

  lemma DivideBound(a: real, s: real, b: real, n: nat)
    requires n > 0 && a * n as real <= s <= b * n as real
    ensures a <= s / n as real <= b
  {
  }

  lemma PrefixSumStep(v: seq<real>, k: nat)
    requires 0 < k <= |v|
    ensures SumOf(v[..k]) == SumOf(v[..k - 1]) + v[k - 1]
  {
    assert v[..k][..k - 1] == v[..k - 1];
  }

  lemma OneMore(x: real, k: nat)
    requires k > 0
    ensures x * k as real == x * (k - 1) as real + x
  {
    assert k as real == (k - 1) as real + 1.0;
  }

  lemma {:induction false} PrefixSumBounds(v: seq<real>, k: nat)
    requires Ascending(v) && 0 < k <= |v|
    ensures v[0] * k as real <= SumOf(v[..k]) <= v[k - 1] * k as real
    decreases k
  {
    PrefixSumStep(v, k);
    OneMore(v[0], k);
    OneMore(v[k - 1], k);
    if k > 1 {
      PrefixSumBounds(v, k - 1);
      TimesCount(v[k - 2], v[k - 1], k - 1);
    }
  }

  /** lower <= mean_p <= upper_p <= upper. */
  lemma MeanBounds(v: seq<real>, k: nat)
    requires Ascending(v) && 0 < k <= |v|
    ensures v[0] <= MeanOf(v, k) <= v[k - 1] <= v[|v| - 1]
  {
    PrefixSumBounds(v, k);
    DivideBound(v[0], SumOf(v[..k]), v[k - 1], k);
  }

  lemma MeanStep(s: real, x: real, k: nat)
    requires k > 0 && s <= x * k as real
    ensures s / k as real <= (s + x) / (k + 1) as real
  {
    var n := k as real;
    var m := s / n;
    assert m * n == s;
    assert m <= x by { DivideAtMost(s, x, n); }
    assert (k + 1) as real == n + 1.0;
    assert m * (n + 1.0) == s + m <= s + x;
    AtMostQuotient(m, s + x, n + 1.0);
  }

  lemma DivideAtMost(s: real, x: real, n: real)
    requires n > 0.0 && s <= x * n
    ensures s / n <= x
  {
  }

  lemma AtMostQuotient(m: real, s: real, n: real)
    requires n > 0.0 && m * n <= s
    ensures m <= s / n
  {
  }

  lemma MeanOfOneMore(v: seq<real>, k: nat)
    requires Ascending(v) && 1 < k <= |v|
    ensures MeanOf(v, k - 1) <= MeanOf(v, k)
  {
    PrefixSumBounds(v, k - 1);
    TimesCount(v[k - 2], v[k - 1], k - 1);
    PrefixSumStep(v, k);
    hide SumOf;
    MeanStep(SumOf(v[..k - 1]), v[k - 1], k - 1);
  }

  /** Covering more samples never lowers the mean. */
  lemma {:induction false} MeanMonotone(v: seq<real>, j: nat, k: nat)
    requires Ascending(v) && 0 < j <= k <= |v|
    ensures MeanOf(v, j) <= MeanOf(v, k)
    decreases k
  {
    hide MeanOf;
    if j < k {
      MeanMonotone(v, j, k - 1);
      MeanOfOneMore(v, k);
    }
  }

  // ---------- the entries of a timer ----------

  lemma EntryNamesDistinct(a: string, b: string)
    ensures "upper_" + a != "count_" + b && "upper_" + a != "sum_" + b && "upper_" + a != "mean_" + b
    ensures "count_" + a != "sum_" + b && "count_" + a != "mean_" + b && "sum_" + a != "mean_" + b
    ensures "upper_" + a == "upper_" + b ==> a == b
    ensures "upper_" + a !in {"upper", "lower", "count", "mean"}
    ensures "count_" + a !in {"upper", "lower", "count", "mean"}
    ensures "sum_" + a !in {"upper", "lower", "count", "mean"}
    ensures "mean_" + a !in {"upper", "lower", "count", "mean"}
  {
    var u, c, s, m := "upper_" + b, "count_" + b, "sum_" + b, "mean_" + b;
    assert ("upper_" + a)[0] == u[0] == 'u' && ("count_" + a)[0] == c[0] == 'c';
    assert ("sum_" + a)[0] == s[0] == 's' && ("mean_" + a)[0] == m[0] == 'm';
    assert "upper"[0] == 'u' && "lower"[0] == 'l' && "count"[0] == 'c' && "mean"[0] == 'm';
    assert |"upper"| < |"upper_" + a| && |"count"| < |"count_" + a| && |"mean"| < |"mean_" + a|;
    assert ("upper_" + a)[6..] == a && ("upper_" + b)[6..] == b;
  }

  ghost predicate Percentages(percentiles: seq<int>) {
    forall p :: p in percentiles ==> Abs(p) <= 100
  }

  lemma EntriesOfOthers(threshold: Threshold, sorted: seq<real>, p: int, q: int)
    requires NearestRank(threshold)
    requires sorted != [] && Abs(p) <= 100 && Abs(q) <= 100
    ensures Abs(p) == Abs(q) ==> PercentileEntries(threshold, sorted, p) == PercentileEntries(threshold, sorted, q)
    ensures Abs(p) != Abs(q) ==>
              PercentileEntries(threshold, sorted, p).Keys !! PercentileEntries(threshold, sorted, q).Keys
  {
    hide SumOf, NatText;
    if Abs(p) != Abs(q) {
      if NatText(Abs(p)) == NatText(Abs(q)) {
        NatTextInjective(Abs(p), Abs(q));
      }
      NamesDiffer(PercentileName(p), PercentileName(q));
    }
  }

  lemma NamesDiffer(a: string, b: string)
    requires a != b
    ensures {"upper_" + a, "count_" + a, "sum_" + a, "mean_" + a}
         !! {"upper_" + b, "count_" + b, "sum_" + b, "mean_" + b}
  {
    EntryNamesDistinct(a, b);
    EntryNamesDistinct(b, a);
    assert ("count_" + a)[6..] == a && ("count_" + b)[6..] == b;
    assert ("sum_" + a)[4..] == a && ("sum_" + b)[4..] == b;
    assert ("mean_" + a)[5..] == a && ("mean_" + b)[5..] == b;
  }

  /** Each percentile's entries survive those of the percentiles after it. */
  lemma {:induction false} EntriesKept(threshold: Threshold, sorted: seq<real>, percentiles: seq<int>, p: int,
                                       key: string)
    requires NearestRank(threshold)
    requires sorted != [] && Percentages(percentiles) && Abs(p) <= 100
    requires key in PercentileEntries(threshold, sorted, p)
    ensures p in percentiles ==> key in AllPercentileEntries(threshold, sorted, percentiles)
    ensures key in AllPercentileEntries(threshold, sorted, percentiles)
        ==> AllPercentileEntries(threshold, sorted, percentiles)[key] == PercentileEntries(threshold, sorted, p)[key]
  {
    hide PercentileEntries;
    if percentiles != [] {
      var front, last := percentiles[..|percentiles| - 1], percentiles[|percentiles| - 1];
      EntriesKept(threshold, sorted, front, p, key);
      EntriesOfOthers(threshold, sorted, p, last);
      assert percentiles == front + [last];
    }
  }

  lemma EntriesOf(threshold: Threshold, p: int, sorted: seq<real>)
    requires NearestRank(threshold)
    requires sorted != [] && Abs(p) <= 100 && NumInThreshold(threshold, p, |sorted|) <= |sorted|
    requires |sorted| > 1 && NumInThreshold(threshold, p, |sorted|) > 0
    ensures var k, name := NumInThreshold(threshold, p, |sorted|), PercentileName(p);
            var entries := PercentileEntries(threshold, sorted, p);
            && entries.Keys == {"upper_" + name, "count_" + name, "sum_" + name, "mean_" + name}
            && entries["upper_" + name] == Num(sorted[k - 1])
            && entries["count_" + name] == Num(k as real)
            && entries["sum_" + name] == Num(SumOf(sorted[..k]))
            && entries["mean_" + name] == Num(MeanOf(sorted, k))
  {
    hide SumOf, NatText;
    EntryNamesDistinct(PercentileName(p), PercentileName(p));
  }

  lemma TimerEntry(threshold: Threshold, values: seq<real>, timerCount: Stat, percentiles: seq<int>, p: int,
                   key: string)
    requires NearestRank(threshold)
    requires values != [] && Percentages(percentiles) && p in percentiles
    requires key in PercentileEntries(threshold, Sort(values), p) && key !in {"upper", "lower", "count", "mean"}
    ensures var data := TimerEntries(threshold, values, timerCount, percentiles);
            key in data && data[key] == PercentileEntries(threshold, Sort(values), p)[key]
  {
    hide PercentileEntries, AllPercentileEntries, Sort, SumOf;
    EntriesKept(threshold, Sort(values), percentiles, p, key);
  }

  /** The four figures of a percentile, all of them numbers. */
  ghost predicate Figures(data: map<string, Stat>, name: string) {
    && {"upper_" + name, "count_" + name, "sum_" + name, "mean_" + name} <= data.Keys
    && data["upper_" + name].Num? && data["count_" + name].Num?
    && data["sum_" + name].Num? && data["mean_" + name].Num?
  }

  ghost predicate Whole(data: map<string, Stat>) {
    {"upper", "lower", "mean"} <= data.Keys && data["upper"].Num? && data["lower"].Num? && data["mean"].Num?
  }

  lemma ReportedEntries(threshold: Threshold, values: seq<real>, timerCount: Stat, percentiles: seq<int>, p: int)
    requires NearestRank(threshold)
    requires |values| > 1 && Percentages(percentiles) && p in percentiles
    requires NumInThreshold(threshold, p, |values|) > 0
    ensures var v, k, name := Sort(values), NumInThreshold(threshold, p, |values|), PercentileName(p);
            var data := TimerEntries(threshold, values, timerCount, percentiles);
            && 0 < k <= |v| && Figures(data, name)
            && data["upper_" + name] == Num(v[k - 1])
            && data["count_" + name] == Num(k as real)
            && data["sum_" + name] == Num(SumOf(v[..k]))
            && data["mean_" + name] == Num(MeanOf(v, k))
  {
    hide AllPercentileEntries, PercentileEntries, TimerEntries, SumOf, MeanOf, NumInThreshold, NearestRank, Abs,
      PercentileName, Ascending, Sort;
    var v, name := Sort(values), PercentileName(p);
    ThresholdInRange(threshold, p, |values|);
    EntriesOf(threshold, p, v);
    EntryNamesDistinct(name, name);
    TimerEntry(threshold, values, timerCount, percentiles, p, "upper_" + name);
    TimerEntry(threshold, values, timerCount, percentiles, p, "count_" + name);
    TimerEntry(threshold, values, timerCount, percentiles, p, "sum_" + name);
    TimerEntry(threshold, values, timerCount, percentiles, p, "mean_" + name);
  }

  lemma {:induction false} NotReported(threshold: Threshold, sorted: seq<real>, percentiles: seq<int>, p: int)
    requires NearestRank(threshold)
    requires |sorted| > 1 && Percentages(percentiles) && Abs(p) <= 100 && NumInThreshold(threshold, p, |sorted|) == 0
    ensures EntryKeys(PercentileName(p)) !! AllPercentileEntries(threshold, sorted, percentiles).Keys
  {
    if percentiles != [] {
      var front, q := percentiles[..|percentiles| - 1], percentiles[|percentiles| - 1];
      NotReported(threshold, sorted, front, p);
      if Abs(q) != Abs(p) {
        if NatText(Abs(p)) == NatText(Abs(q)) {
          NatTextInjective(Abs(p), Abs(q));
        }
        hide SumOf, NatText;
        NamesDiffer(PercentileName(p), PercentileName(q));
      }
    }
  }

  function EntryKeys(name: string): set<string> {
    {"upper_" + name, "count_" + name, "sum_" + name, "mean_" + name}
  }

  /** A configured percentile is reported if and only if it covers a sample, or there is just one. */
  lemma ReportedIffCovering(threshold: Threshold, values: seq<real>, timerCount: Stat, percentiles: seq<int>, p: int)
    requires NearestRank(threshold)
    requires values != [] && Percentages(percentiles) && p in percentiles
    ensures var keys, data := EntryKeys(PercentileName(p)), TimerEntries(threshold, values, timerCount, percentiles);
            if |values| == 1 || NumInThreshold(threshold, p, |values|) > 0 then keys <= data.Keys else keys !! data.Keys
  {
    var name := PercentileName(p);
    EntryNamesDistinct(name, name);
    if |values| == 1 {
      SingleSample(threshold, values[0], timerCount, percentiles, p);
      assert values == [values[0]];
    } else if NumInThreshold(threshold, p, |values|) > 0 {
      ReportedEntries(threshold, values, timerCount, percentiles, p);
    } else {
      NotReported(threshold, Sort(values), percentiles, p);
    }
  }

  /**
   With two samples or more, a percentile that covers k > 0 of them reports k, the k-th smallest
   sample, the least sum of k samples and its mean, in the order
   lower <= mean_p <= upper_p <= upper with mean_p <= mean.
   */
  lemma PercentileFigures(threshold: Threshold, values: seq<real>, timerCount: Stat, percentiles: seq<int>, p: int)
      returns (upper: real, sum: real)
    requires NearestRank(threshold)
    requires |values| > 1 && Percentages(percentiles) && p in percentiles
    requires NumInThreshold(threshold, p, |values|) > 0
    ensures var n, k, name := |values|, NumInThreshold(threshold, p, |values|), PercentileName(p);
            var data := TimerEntries(threshold, values, timerCount, percentiles);
            && {"upper_" + name, "count_" + name, "sum_" + name, "mean_" + name} <= data.Keys
            && {"upper", "lower", "mean"} <= data.Keys
            && data["count_" + name] == Num(k as real) && k <= n
            && data["upper_" + name] == Num(upper)
            && data["sum_" + name] == Num(sum)
            && data["mean_" + name] == Num(sum / k as real)
            && upper in multiset(values)
            && CountOf(values, x => x < upper) < k <= CountOf(values, x => x <= upper)
            && (forall t :: multiset(t) <= multiset(values) && |t| == k ==> sum <= SumOf(t))
            && (exists t :: multiset(t) <= multiset(values) && |t| == k && SumOf(t) == sum)
            && data["lower"].Num? && data["upper"].Num? && data["mean"].Num?
            && data["lower"].value <= sum / k as real <= upper <= data["upper"].value
            && sum / k as real <= data["mean"].value
  {
    hide TimerEntries, SumOf, NumInThreshold;
    var v, k := Sort(values), NumInThreshold(threshold, p, |values|);
    ReportedEntries(threshold, values, timerCount, percentiles, p);
    WholeSetFigures(threshold, values, timerCount, percentiles);
    upper, sum := v[k - 1], SumOf(v[..k]);
    KthSmallest(values, k);
    LeastSum(values, k);
    MeanBounds(v, k);
    MeanMonotone(v, k, |v|);
  }

  lemma WholeSetFigures(threshold: Threshold, values: seq<real>, timerCount: Stat, percentiles: seq<int>)
    requires NearestRank(threshold)
    requires values != [] && Percentages(percentiles)
    ensures var data, v := TimerEntries(threshold, values, timerCount, percentiles), Sort(values);
            && {"upper", "lower", "count", "mean"} <= data.Keys
            && data["upper"] == Num(v[|v| - 1]) && data["lower"] == Num(v[0])
            && data["count"] == timerCount && data["mean"] == Num(MeanOf(v, |v|))
            && MeanOf(v, |v|) == SumOf(values) / |values| as real
  {
    hide AllPercentileEntries, SumOf, Sort;
    var v := Sort(values);
    assert v[..|v|] == v;
    SumPermutation(v, values);
  }

  /** Of two percentiles reported the larger has no smaller count, bound or mean; 100 has the whole set's. */
  lemma PercentilesMonotone(threshold: Threshold, values: seq<real>, timerCount: Stat, percentiles: seq<int>, p: int,
                            q: int)
    requires NearestRank(threshold)
    requires |values| > 1 && Percentages(percentiles) && p in percentiles && q in percentiles
    requires Abs(p) <= Abs(q) && NumInThreshold(threshold, p, |values|) > 0
    ensures var data := TimerEntries(threshold, values, timerCount, percentiles);
            var a, b := PercentileName(p), PercentileName(q);
            && Figures(data, a) && Figures(data, b) && Whole(data)
            && data["count_" + a].value <= data["count_" + b].value <= |values| as real
            && data["upper_" + a].value <= data["upper_" + b].value
            && data["mean_" + a].value <= data["mean_" + b].value
            && (Abs(q) == 100 ==>
                  && data["count_" + b] == Num(|values| as real) && data["upper_" + b] == data["upper"]
                  && data["sum_" + b] == Num(SumOf(values)) && data["mean_" + b] == data["mean"])
  {
    hide TimerEntries, SumOf;
    var n, v := |values|, Sort(values);
    ThresholdMonotone(threshold, p, q, n);
    ThresholdInRange(threshold, q, n);
    hide NumInThreshold, NearestRank;
    ReportedEntries(threshold, values, timerCount, percentiles, p);
    ReportedEntries(threshold, values, timerCount, percentiles, q);
    WholeSetFigures(threshold, values, timerCount, percentiles);
    MeanMonotone(v, NumInThreshold(threshold, p, n), NumInThreshold(threshold, q, n));
    assert v[..n] == v;
    SumPermutation(v, values);
  }

  lemma ThresholdMonotone(threshold: Threshold, p: int, q: int, n: nat)
    requires NearestRank(threshold) && Abs(p) <= Abs(q) <= 100
    ensures NumInThreshold(threshold, p, n) <= NumInThreshold(threshold, q, n)
  {
    var a, b := Abs(p), Abs(q);
    var k, l := threshold(a, n), threshold(b, n);
    assert 100 * k <= a * n + 50 && b * n - 50 <= 100 * l;
    hide NearestRank, Abs;
    if n == 0 {
      assert a * n == 0 && b * n == 0;
    } else if a < b {
      MulMonotone(a + 1, b, n);
      assert (a + 1) * n == a * n + n;
    }
  }

  /** With a single sample every percentile covers nothing, and its mean is 0/0. */
  lemma SingleSample(threshold: Threshold, x: real, timerCount: Stat, percentiles: seq<int>, p: int)
    requires NearestRank(threshold)
    requires Percentages(percentiles) && p in percentiles
    ensures var data, name := TimerEntries(threshold, [x], timerCount, percentiles), PercentileName(p);
            && {"upper_" + name, "count_" + name, "sum_" + name, "mean_" + name} <= data.Keys
            && data["upper_" + name] == Num(x) && data["count_" + name] == Num(0.0)
            && data["sum_" + name] == Num(0.0) && data["mean_" + name] == NotFinite
  {
    var name := PercentileName(p);
    var v := Sort([x]);
    assert v[0] in multiset(v) && v == [x];
    assert v[..0] == [];
    var entries := PercentileEntries(threshold, v, p);
    EntryNamesDistinct(name, name);
    assert entries["mean_" + name] == NotFinite;
    hide AllPercentileEntries, Sort, TimerEntries;
    TimerEntry(threshold, [x], timerCount, percentiles, p, "upper_" + name);
    TimerEntry(threshold, [x], timerCount, percentiles, p, "count_" + name);
    TimerEntry(threshold, [x], timerCount, percentiles, p, "sum_" + name);
    TimerEntry(threshold, [x], timerCount, percentiles, p, "mean_" + name);
  }
}
