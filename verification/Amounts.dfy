/**
 Doubles that have left the numbers, and sums in which one of them may turn up.
 */
module Amounts {
  import opened Collections

  /**
   A double: a number, or else an infinity or NaN. The two are not told apart, because adding
   numbers to either never gives a number again.
   */
  datatype Stat = Num(value: real) | NotFinite

  const ZERO: Stat := Num(0.0)

  function Plus(a: Stat, b: Stat): Stat {
    if a.Num? && b.Num? then Num(a.value + b.value) else NotFinite
  }

  function Product(a: Stat, b: Stat): Stat {
    if a.Num? && b.Num? then Num(a.value * b.value) else NotFinite
  }

  /** Dividing by 0 gives an infinity, or NaN for 0/0. */
  function Quotient(a: real, b: real): Stat {
    if b == 0.0 then NotFinite else Num(a / b)
  }

  function Over(a: Stat, n: int): Stat
    requires n != 0
  {
    if a.Num? then Num(a.value / n as real) else NotFinite
  }

  lemma OverTimes(a: Stat, n: int)
    requires n != 0
    ensures Product(Over(a, n), Num(n as real)) == a
  {
  }

  // ---------- sums over sequences ----------

  ghost function Sigma<T>(xs: seq<T>, f: T -> Stat): Stat {
    if xs == [] then ZERO else Plus(Sigma(xs[..|xs| - 1], f), f(xs[|xs| - 1]))
  }

  lemma {:induction false} SigmaAppend<T>(xs: seq<T>, ys: seq<T>, f: T -> Stat)
    ensures Sigma(xs + ys, f) == Plus(Sigma(xs, f), Sigma(ys, f))
  {
    if ys == [] {
      assert xs + ys == xs;
    } else {
      assert (xs + ys)[..|xs + ys| - 1] == xs + ys[..|ys| - 1];
      SigmaAppend(xs, ys[..|ys| - 1], f);
    }
  }

  lemma SigmaSingle<T>(x: T, f: T -> Stat)
    ensures Sigma([x], f) == f(x)
  {
    assert [x][..0] == [];
  }

  lemma {:induction false} SigmaRemove<T>(xs: seq<T>, i: nat, f: T -> Stat)
    requires i < |xs|
    ensures Sigma(xs, f) == Plus(Sigma(xs[..i] + xs[i + 1..], f), f(xs[i]))
  {
    assert xs == xs[..i] + [xs[i]] + xs[i + 1..];
    SigmaAppend(xs[..i] + [xs[i]], xs[i + 1..], f);
    SigmaAppend(xs[..i], [xs[i]], f);
    SigmaAppend(xs[..i], xs[i + 1..], f);
    SigmaSingle(xs[i], f);
  }

  /** A sum does not depend on the order of its terms. */
  lemma {:induction false} SigmaPermutation<T>(xs: seq<T>, ys: seq<T>, f: T -> Stat)
    requires multiset(xs) == multiset(ys)
    ensures Sigma(xs, f) == Sigma(ys, f)
    decreases |xs|
  {
    if xs == [] {
      assert |ys| == |multiset(ys)| == 0;
    } else {
      var i := RemoveLast(xs, ys);
      SigmaPermutation(xs[..|xs| - 1], ys[..i] + ys[i + 1..], f);
      SigmaRemove(ys, i, f);
    }
  }

  predicate IsNotFinite(s: Stat) {
    s.NotFinite?
  }

  function NumberOf(s: Stat): real {
    if s.Num? then s.value else 0.0
  }

  /** A sum is the ordinary sum as long as all its terms are numbers, and no number otherwise. */
  lemma {:induction false} SigmaMeans<T>(xs: seq<T>, f: T -> Stat)
    ensures Sigma(xs, f).Num? <==> Filter(xs, x => IsNotFinite(f(x))) == []
    ensures Sigma(xs, f).Num? ==> Sigma(xs, f) == Num(Total(xs, x => NumberOf(f(x))))
  {
    if xs != [] {
      SigmaMeans(xs[..|xs| - 1], f);
    }
  }
}
