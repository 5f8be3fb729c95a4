/**
 Sums, filters and map look-ups shared by the rest of the model. Sequences are folded from the
 right end, because a ledger and a queue both grow at that end.
 */
module Collections {

  datatype Option<+T> = None | Some(value: T)

  datatype Result<+T> = Success(value: T) | Failure(error: string)

  /** The element at `k`, or `default`: what `operator[]` on a C++ map yields. */
  function Get<K, V>(m: map<K, V>, k: K, default: V): V {
    if k in m then m[k] else default
  }

  /** The entries of `m` other than those still in `rest`. */
  ghost function Without<K, V>(m: map<K, V>, rest: set<K>): map<K, V> {
    map k | k in m && k !in rest :: m[k]
  }

  lemma WithoutAll<K, V>(base: map<K, V>, m: map<K, V>)
    ensures base + Without(m, m.Keys) == base
    ensures base + Without(m, {}) == base + m
  {
    assert Without(m, m.Keys) == map[];
    assert Without(m, {}) == m;
  }

  /** Filling in one more entry of `m`. */
  lemma FillOne<K, V>(base: map<K, V>, m: map<K, V>, rest: set<K>, k: K)
    requires k in m && k in rest
    ensures (base + Without(m, rest))[k := m[k]] == base + Without(m, rest - {k})
  {
    assert Without(m, rest - {k}) == Without(m, rest)[k := m[k]];
  }

  // ---------- sums over sequences ----------

  ghost function Total<T>(xs: seq<T>, f: T -> real): real {
    if xs == [] then 0.0 else Total(xs[..|xs| - 1], f) + f(xs[|xs| - 1])
  }

  lemma {:induction false} TotalAppend<T>(xs: seq<T>, ys: seq<T>, f: T -> real)
    ensures Total(xs + ys, f) == Total(xs, f) + Total(ys, f)
  {
    if ys == [] {
      assert xs + ys == xs;
    } else {
      assert (xs + ys)[..|xs + ys| - 1] == xs + ys[..|ys| - 1];
      TotalAppend(xs, ys[..|ys| - 1], f);
    }
  }

  lemma TotalSingle<T>(x: T, f: T -> real)
    ensures Total([x], f) == f(x)
  {
    assert [x][..0] == [];
  }

  lemma {:induction false} TotalRemove<T>(xs: seq<T>, i: nat, f: T -> real)
    requires i < |xs|
    ensures Total(xs, f) == Total(xs[..i] + xs[i + 1..], f) + f(xs[i])
  {
    assert xs == xs[..i] + [xs[i]] + xs[i + 1..];
    TotalAppend(xs[..i] + [xs[i]], xs[i + 1..], f);
    TotalAppend(xs[..i], [xs[i]], f);
    TotalAppend(xs[..i], xs[i + 1..], f);
    TotalSingle(xs[i], f);
  }

  /** A sum does not depend on the order of its terms. */
  lemma {:induction false} TotalPermutation<T>(xs: seq<T>, ys: seq<T>, f: T -> real)
    requires multiset(xs) == multiset(ys)
    ensures Total(xs, f) == Total(ys, f)
    decreases |xs|
  {
    if xs == [] {
      assert |ys| == |multiset(ys)| == 0;
    } else {
      var last := xs[|xs| - 1];
      var i := RemoveLast(xs, ys);
      TotalPermutation(xs[..|xs| - 1], ys[..i] + ys[i + 1..], f);
      TotalRemove(ys, i, f);
    }
  }

  lemma WithoutOne<T>(s: seq<T>, i: nat)
    requires i < |s|
    ensures multiset(s[..i] + s[i + 1..]) == multiset(s) - multiset{s[i]}
  {
    assert s == s[..i] + [s[i]] + s[i + 1..];
  }

  /** Taking the last element of `xs` out of both sequences leaves the one within the other. */
  lemma RemoveLast<T>(xs: seq<T>, ys: seq<T>) returns (i: nat)
    requires xs != [] && multiset(xs) <= multiset(ys)
    ensures i < |ys| && ys[i] == xs[|xs| - 1]
    ensures multiset(xs[..|xs| - 1]) <= multiset(ys[..i] + ys[i + 1..])
    ensures multiset(xs) == multiset(ys) ==> multiset(xs[..|xs| - 1]) == multiset(ys[..i] + ys[i + 1..])
  {
    var last := xs[|xs| - 1];
    assert last in multiset(xs);
    i :| 0 <= i < |ys| && ys[i] == last;
    WithoutOne(xs, |xs| - 1);
    WithoutOne(ys, i);
    assert xs[..|xs| - 1] + xs[|xs|..] == xs[..|xs| - 1];
  }

  lemma SameMembers<T>(xs: seq<T>, ys: seq<T>)
    requires multiset(xs) == multiset(ys)
    ensures forall x :: x in xs <==> x in ys
  {
    assert forall x :: x in xs <==> x in multiset(xs);
    assert forall y :: y in ys <==> y in multiset(ys);
  }

  // ---------- filters ----------

  ghost function Filter<T>(xs: seq<T>, p: T -> bool): seq<T> {
    if xs == [] then []
    else if p(xs[|xs| - 1]) then Filter(xs[..|xs| - 1], p) + [xs[|xs| - 1]]
    else Filter(xs[..|xs| - 1], p)
  }

  lemma FilterSnoc<T>(xs: seq<T>, x: T, p: T -> bool)
    ensures Filter(xs + [x], p) == if p(x) then Filter(xs, p) + [x] else Filter(xs, p)
  {
    assert (xs + [x])[..|xs|] == xs;
  }

  lemma {:induction false} FilterAppend<T>(xs: seq<T>, ys: seq<T>, p: T -> bool)
    ensures Filter(xs + ys, p) == Filter(xs, p) + Filter(ys, p)
  {
    if ys == [] {
      assert xs + ys == xs;
    } else {
      assert (xs + ys)[..|xs + ys| - 1] == xs + ys[..|ys| - 1];
      FilterAppend(xs, ys[..|ys| - 1], p);
    }
  }

  lemma FilterWithout<T>(a: seq<T>, x: T, b: seq<T>, p: T -> bool)
    ensures Filter(a + [x] + b, p) == (if p(x) then Filter(a, p) + [x] else Filter(a, p)) + Filter(b, p)
    ensures Filter(a + b, p) == Filter(a, p) + Filter(b, p)
  {
    hide Filter;
    FilterSnoc(a, x, p);
    FilterAppend(a + [x], b, p);
    FilterAppend(a, b, p);
  }

  lemma {:induction false} FilterMembers<T>(xs: seq<T>, p: T -> bool)
    ensures forall x :: x in Filter(xs, p) <==> x in xs && p(x)
  {
    if xs != [] {
      var last := xs[|xs| - 1];
      FilterMembers(xs[..|xs| - 1], p);
      assert xs == xs[..|xs| - 1] + [last];
      assert forall x :: x in xs <==> x in xs[..|xs| - 1] || x == last;
    }
  }

  lemma {:induction false} FilterTwice<T>(xs: seq<T>, p: T -> bool, q: T -> bool)
    ensures Filter(Filter(xs, p), q) == Filter(xs, x => p(x) && q(x))
  {
    if xs != [] {
      var front, last := xs[..|xs| - 1], xs[|xs| - 1];
      FilterTwice(front, p, q);
      if p(last) {
        FilterSnoc(Filter(front, p), last, q);
      }
    }
  }

  lemma {:induction false} FilterSame<T>(xs: seq<T>, p: T -> bool, q: T -> bool)
    requires forall x :: x in xs ==> p(x) == q(x)
    ensures Filter(xs, p) == Filter(xs, q)
  {
    if xs != [] {
      FilterSame(xs[..|xs| - 1], p, q);
    }
  }

  lemma {:induction false} FilterAll<T>(xs: seq<T>, p: T -> bool)
    requires forall x :: x in xs ==> p(x)
    ensures Filter(xs, p) == xs
  {
    if xs != [] {
      FilterAll(xs[..|xs| - 1], p);
      assert xs == xs[..|xs| - 1] + [xs[|xs| - 1]];
    }
  }

  lemma {:induction false} FilterNone<T>(xs: seq<T>, p: T -> bool)
    requires forall x :: x in xs ==> !p(x)
    ensures Filter(xs, p) == []
  {
    if xs != [] {
      FilterNone(xs[..|xs| - 1], p);
    }
  }

  /** Filtering permuted sequences gives permuted results. */
  lemma {:induction false} FilterPermutation<T>(xs: seq<T>, ys: seq<T>, p: T -> bool)
    requires multiset(xs) == multiset(ys)
    ensures multiset(Filter(xs, p)) == multiset(Filter(ys, p))
    decreases |xs|
  {
    if xs == [] {
      assert |ys| == |multiset(ys)| == 0;
    } else {
      var i := RemoveLast(xs, ys);
      FilterPermutation(xs[..|xs| - 1], ys[..i] + ys[i + 1..], p);
      FilterWithout(ys[..i], ys[i], ys[i + 1..], p);
      assert ys == ys[..i] + [ys[i]] + ys[i + 1..];
    }
  }

  // ---------- element-wise images ----------

  ghost function Image<T, U>(xs: seq<T>, f: T -> U): seq<U> {
    seq(|xs|, i requires 0 <= i < |xs| => f(xs[i]))
  }

  lemma {:induction false} ImagePermutation<T, U>(xs: seq<T>, ys: seq<T>, f: T -> U)
    requires multiset(xs) == multiset(ys)
    ensures multiset(Image(xs, f)) == multiset(Image(ys, f))
    decreases |xs|
  {
    if xs == [] {
      assert |ys| == |multiset(ys)| == 0;
    } else {
      var i := RemoveLast(xs, ys);
      ImagePermutation(xs[..|xs| - 1], ys[..i] + ys[i + 1..], f);
      assert Image(xs, f) == Image(xs[..|xs| - 1], f) + [f(ys[i])];
      assert Image(ys, f) == Image(ys[..i], f) + [f(ys[i])] + Image(ys[i + 1..], f);
      assert Image(ys[..i] + ys[i + 1..], f) == Image(ys[..i], f) + Image(ys[i + 1..], f);
    }
  }

  // ---------- concatenation of a sequence of sequences ----------

  ghost function Flatten<T>(xss: seq<seq<T>>): seq<T> {
    if xss == [] then [] else Flatten(xss[..|xss| - 1]) + xss[|xss| - 1]
  }

  lemma FlattenSnoc<T>(xss: seq<seq<T>>, xs: seq<T>)
    ensures Flatten(xss + [xs]) == Flatten(xss) + xs
  {
    assert (xss + [xs])[..|xss|] == xss;
  }

  // ---------- sums over sets ----------

  ghost function Sum<K>(s: set<K>, f: K -> int): int {
    if s == {} then 0 else
    var x :| x in s;
    f(x) + Sum(s - {x}, f)
  }

  /** Any element may be taken out first. */
  lemma {:induction false} SumRemove<K>(s: set<K>, x: K, f: K -> int)
    requires x in s
    ensures Sum(s, f) == f(x) + Sum(s - {x}, f)
    decreases s
  {
    var y :| y in s && Sum(s, f) == f(y) + Sum(s - {y}, f);
    if y != x {
      SumRemove(s - {y}, x, f);
      SumRemove(s - {x}, y, f);
      assert s - {y} - {x} == s - {x} - {y};
    }
  }

  lemma SumInsert<K>(s: set<K>, x: K, f: K -> int)
    requires x !in s
    ensures Sum(s + {x}, f) == Sum(s, f) + f(x)
  {
    SumRemove(s + {x}, x, f);
    assert s + {x} - {x} == s;
  }

  lemma {:induction false} SumSame<K>(s: set<K>, f: K -> int, g: K -> int)
    requires forall x :: x in s ==> f(x) == g(x)
    ensures Sum(s, f) == Sum(s, g)
    decreases s
  {
    if s != {} {
      var x :| x in s;
      SumRemove(s, x, f);
      SumRemove(s, x, g);
      SumSame(s - {x}, f, g);
    }
  }

  lemma AffineStep(c: int, a: int, b: int, d: int, n: int)
    ensures c * (a + b) + d * (n + 1) == (c * a + d) + (c * b + d * n)
  {
  }

  lemma {:induction false} SumAffine<K>(s: set<K>, f: K -> int, g: K -> int, c: int, d: int)
    requires forall x :: x in s ==> g(x) == c * f(x) + d
    ensures Sum(s, g) == c * Sum(s, f) + d * |s|
    decreases s
  {
    if s != {} {
      var x :| x in s;
      SumRemove(s, x, f);
      SumRemove(s, x, g);
      SumAffine(s - {x}, f, g, c, d);
      AffineStep(c, f(x), Sum(s - {x}, f), d, |s - {x}|);
    }
  }

  lemma {:induction false} SumConstant<K>(s: set<K>, f: K -> int, c: int)
    requires forall x :: x in s ==> f(x) == c
    ensures Sum(s, f) == c * |s|
    decreases s
  {
    if s != {} {
      var x :| x in s;
      SumRemove(s, x, f);
      SumConstant(s - {x}, f, c);
    }
  }

  lemma {:induction false} SumMonotone<K>(s: set<K>, f: K -> int, g: K -> int)
    requires forall x :: x in s ==> f(x) <= g(x)
    ensures Sum(s, f) <= Sum(s, g)
    decreases s
  {
    if s != {} {
      var x :| x in s;
      SumRemove(s, x, f);
      SumRemove(s, x, g);
      SumMonotone(s - {x}, f, g);
    }
  }
}
