/** Sums over the values of a finite map: what the contracts' running counters stand for. */
module MapSum {

  ghost function Sum<K(!new), V>(m: map<K, V>, f: V -> int): int
    decreases |m|
  {
    if m == map[] then 0
    else
      var k :| k in m;
      assert (m - {k}).Keys == m.Keys - {k};
      f(m[k]) + Sum(m - {k}, f)
  }

  lemma SizeAfterPut<K, V>(m: map<K, V>, k: K, v: V)
    ensures |m[k := v]| == |m| + if k in m then 0 else 1
  {
    assert m[k := v].Keys == m.Keys + {k};
  }

  lemma SizeAfterTakeOut<K, V>(m: map<K, V>, k: K)
    requires k in m
    ensures |m - {k}| == |m| - 1
  {
    assert (m - {k}).Keys == m.Keys - {k};
  }

  /** The sum does not depend on which key is taken out first. */
  lemma {:induction false} TakeOut<K(!new), V>(m: map<K, V>, k: K, f: V -> int)
    requires k in m
    ensures Sum(m, f) == f(m[k]) + Sum(m - {k}, f)
    decreases |m|
  {
    var j :| j in m && Sum(m, f) == f(m[j]) + Sum(m - {j}, f);
    if j != k {
      assert (m - {j}).Keys == m.Keys - {j} && (m - {k}).Keys == m.Keys - {k};
      TakeOut(m - {j}, k, f);
      TakeOut(m - {k}, j, f);
      assert m - {j} - {k} == m - {k} - {j};
    }
  }

  lemma Put<K(!new), V>(m: map<K, V>, k: K, v: V, f: V -> int)
    ensures Sum(m[k := v], f) == Sum(m, f) - (if k in m then f(m[k]) else 0) + f(v)
  {
    TakeOut(m[k := v], k, f);
    assert m[k := v] - {k} == m - {k};
    if k in m {
      TakeOut(m, k, f);
    } else {
      assert m - {k} == m;
    }
  }

  /** A sum is at most another whose map has every key, with a value at least as large, and
      no negative values. */
  lemma {:induction false} Dominated<K(!new), V, W>(a: map<K, V>, f: V -> int, b: map<K, W>, g: W -> int)
    requires forall k :: k in a ==> k in b && f(a[k]) <= g(b[k])
    requires forall k :: k in b ==> 0 <= g(b[k])
    ensures Sum(a, f) <= Sum(b, g)
    decreases |b|
  {
    if b == map[] {
      assert a == map[];
    } else {
      var k :| k in b;
      assert (b - {k}).Keys == b.Keys - {k};
      TakeOut(b, k, g);
      Dominated(a - {k}, f, b - {k}, g);
      if k in a {
        TakeOut(a, k, f);
      } else {
        assert a - {k} == a;
      }
    }
  }

  /** Sums of non-negative values are non-negative and at least each value. */
  lemma {:induction false} AtLeastEach<K(!new), V>(m: map<K, V>, f: V -> int)
    requires forall k :: k in m ==> 0 <= f(m[k])
    ensures 0 <= Sum(m, f)
    ensures forall k :: k in m ==> f(m[k]) <= Sum(m, f)
  {
    Dominated(map[], f, m, f);
    forall k | k in m
      ensures f(m[k]) <= Sum(m, f)
    {
      TakeOut(m, k, f);
      Dominated(map[], f, m - {k}, f);
    }
  }

  /** Without positive values the sum is not positive. */
  lemma {:induction false} NothingPositive<K(!new), V>(m: map<K, V>, f: V -> int)
    requires forall k :: k in m ==> f(m[k]) <= 0
    ensures Sum(m, f) <= 0
    decreases |m|
  {
    if m != map[] {
      var k :| k in m;
      assert (m - {k}).Keys == m.Keys - {k};
      TakeOut(m, k, f);
      NothingPositive(m - {k}, f);
    }
  }

  /** Two maps with the same keys and the same values under f and g have the same sum. */
  lemma {:induction false} SameSum<K(!new), V, W>(a: map<K, V>, f: V -> int, b: map<K, W>, g: W -> int)
    requires a.Keys == b.Keys && forall k :: k in a ==> f(a[k]) == g(b[k])
    ensures Sum(a, f) == Sum(b, g)
    decreases |a|
  {
    if a == map[] {
      assert b == map[];
    } else {
      var k :| k in a;
      assert k in b;
      assert (a - {k}).Keys == a.Keys - {k} && (b - {k}).Keys == b.Keys - {k};
      TakeOut(a, k, f);
      TakeOut(b, k, g);
      SameSum(a - {k}, f, b - {k}, g);
    }
  }

  /** Two different keys together stay below the sum. */
  lemma AtLeastTwo<K(!new), V>(m: map<K, V>, j: K, k: K, f: V -> int)
    requires forall x :: x in m ==> 0 <= f(m[x])
    requires j in m && k in m && j != k
    ensures f(m[j]) + f(m[k]) <= Sum(m, f)
  {
    TakeOut(m, j, f);
    AtLeastEach(m - {j}, f);
  }

  /** Summing f and g separately is summing f + g. */
  lemma {:induction false} Split<K(!new), V>(m: map<K, V>, f: V -> int, g: V -> int, h: V -> int)
    requires forall k :: k in m ==> h(m[k]) == f(m[k]) + g(m[k])
    ensures Sum(m, h) == Sum(m, f) + Sum(m, g)
    decreases |m|
  {
    if m != map[] {
      var k :| k in m;
      assert (m - {k}).Keys == m.Keys - {k};
      TakeOut(m, k, f);
      TakeOut(m, k, g);
      TakeOut(m, k, h);
      Split(m - {k}, f, g, h);
    }
  }

  /** The part of a map whose keys lie in s. */
  function Restrict<K, V>(m: map<K, V>, s: set<K>): (r: map<K, V>) {
    map k | k in m && k in s :: m[k]
  }

  /** Taking a key out of a map takes it out of the part it lies in and leaves the other part alone. */
  lemma RestrictWithout<K, V>(m: map<K, V>, s: set<K>, k: K)
    requires k in m
    ensures var n := m - {k};
      && Restrict(n, s) == Restrict(m, s) - {k} && Restrict(n, n.Keys - s) == Restrict(m, m.Keys - s) - {k}
      && n.Keys == m.Keys - {k}
    ensures k in s ==> Restrict(m, m.Keys - s) - {k} == Restrict(m, m.Keys - s)
    ensures k !in s ==> Restrict(m, s) - {k} == Restrict(m, s)
  {
  }

  /** Cutting a map in two cuts its sum in two. */
  lemma {:induction false} Partition<K(!new), V>(m: map<K, V>, s: set<K>, f: V -> int)
    ensures Sum(m, f) == Sum(Restrict(m, s), f) + Sum(Restrict(m, m.Keys - s), f)
    decreases |m|
  {
    if m == map[] {
      assert Restrict(m, s) == map[] && Restrict(m, m.Keys - s) == map[];
    } else {
      var k :| k in m;
      RestrictWithout(m, s, k);
      TakeOut(m, k, f);
      Partition(m - {k}, s, f);
      TakeOut(if k in s then Restrict(m, s) else Restrict(m, m.Keys - s), k, f);
    }
  }
}
