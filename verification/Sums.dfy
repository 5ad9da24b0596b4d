/** Sums over the values of a map, in no particular order. */
module Sums {
  import opened Arithmetic

  ghost function SumOf<K(!new)>(m: map<K, real>): real
    decreases |m|
  {
    if m == map[] then 0.0
    else
      var k :| k in m;
      assert (m - {k}).Keys == m.Keys - {k};
      m[k] + SumOf(m - {k})
  }

  lemma {:induction false} SumRemove<K(!new)>(m: map<K, real>, k: K)
    requires k in m
    ensures SumOf(m) == m[k] + SumOf(m - {k})
    decreases |m|
  {
    var p :| p in m && SumOf(m) == m[p] + SumOf(m - {p});
    if p != k {
      assert (m - {p}).Keys == m.Keys - {p} && (m - {k}).Keys == m.Keys - {k};
      SumRemove(m - {p}, k);
      SumRemove(m - {k}, p);
      assert m - {p} - {k} == m - {k} - {p};
    }
  }

  lemma {:induction false} SumPlus<K(!new)>(a: map<K, real>, b: map<K, real>, c: map<K, real>)
    requires a.Keys == b.Keys == c.Keys
    requires forall k | k in c :: c[k] == a[k] + b[k]
    ensures SumOf(c) == SumOf(a) + SumOf(b)
    decreases |c|
  {
    if c == map[] {
      assert a == map[] && b == map[];
    } else {
      var k :| k in c;
      SumRemove(a, k);
      SumRemove(b, k);
      SumRemove(c, k);
      assert (c - {k}).Keys == c.Keys - {k};
      SumPlus(a - {k}, b - {k}, c - {k});
    }
  }

  lemma {:induction false} SumZero<K(!new)>(m: map<K, real>)
    requires forall k | k in m :: m[k] == 0.0
    ensures SumOf(m) == 0.0
    decreases |m|
  {
    if m != map[] {
      var k :| k in m;
      SumRemove(m, k);
      assert (m - {k}).Keys == m.Keys - {k};
      SumZero(m - {k});
    }
  }

  /** `f` distributes over sums; quantified over pairs so that only pairs instantiate it. */
  ghost predicate Additive(f: real -> real) {
    f(0.0) == 0.0 && forall p: (real, real) :: f(p.0 + p.1) == f(p.0) + f(p.1)
  }

  lemma AdditiveAt(f: real -> real, x: real, y: real)
    requires Additive(f)
    ensures f(x + y) == f(x) + f(y)
  {
    var p := (x, y);
    assert f(p.0 + p.1) == f(p.0) + f(p.1);
  }

  function Over(c: real): real -> real
    requires c != 0.0
  {
    (x: real) => x / c
  }

  lemma OverIsAdditive(c: real)
    requires c != 0.0
    ensures Additive(Over(c))
  {
    forall p: (real, real) ensures Over(c)(p.0 + p.1) == Over(c)(p.0) + Over(c)(p.1) {
      QuotientsAdd(p.0, p.1, c);
    }
  }

  ghost predicate Image<K(!new)>(a: map<K, real>, b: map<K, real>, f: real -> real) {
    a.Keys == b.Keys && forall k | k in a :: b[k] == f(a[k])
  }

  lemma ImageWithout<K(!new)>(a: map<K, real>, b: map<K, real>, f: real -> real, k: K)
    requires Image(a, b, f) && k in a
    ensures Image(a - {k}, b - {k}, f) && |a - {k}| < |a|
  {
    assert (a - {k}).Keys == a.Keys - {k};
  }

  lemma {:induction false} SumMapped<K(!new)>(a: map<K, real>, b: map<K, real>, f: real -> real)
    requires Image(a, b, f) && Additive(f)
    ensures SumOf(b) == f(SumOf(a))
    decreases |a|
  {
    if k :| k in a {
      ImageWithout(a, b, f, k);
      SumMapped(a - {k}, b - {k}, f);
      AdditiveAt(f, a[k], SumOf(a - {k}));
      SumRemove(a, k);
      SumRemove(b, k);
    } else {
      assert a == map[] && b == map[];
    }
  }

  method SumValues<K(!new, ==)>(values: map<K, real>) returns (sum: real)
    ensures sum == SumOf(values)
  {
    var rest := values;
    sum := 0.0;
    while rest != map[]
      invariant sum + SumOf(rest) == SumOf(values)
      decreases |rest|
    {
      var k :| k in rest;
      SumRemove(rest, k);
      assert (rest - {k}).Keys == rest.Keys - {k};
      sum, rest := sum + rest[k], rest - {k};
    }
  }

  // ---------- Sums over lists ----------

  function TotalBy<T>(s: seq<T>, f: T -> real): real {
    if |s| == 0 then 0.0 else f(s[0]) + TotalBy(s[1..], f)
  }

  lemma {:induction false} TotalByLast<T>(most: seq<T>, last: T, f: T -> real)
    ensures TotalBy(most + [last], f) == TotalBy(most, f) + f(last)
  {
    if |most| == 0 {
      assert most + [last] == [last] && [last][1..] == [];
    } else {
      assert (most + [last])[1..] == most[1..] + [last];
      TotalByLast(most[1..], last, f);
    }
  }
}
