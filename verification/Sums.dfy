/** Sums over finite tables, and how storing one record changes them. */
module Sums {

  /** The sum of a measure over a table's records. */
  ghost function Total<K(!new), V>(t: map<K, V>, f: (K, V) -> int): int
    decreases |t|
  {
    if t == map[] then 0 else
      var k :| k in t;
      f(k, t[k]) + Total(t - {k}, f)
  }

  lemma {:induction false} TotalRemove<K(!new), V>(t: map<K, V>, f: (K, V) -> int, k: K)
    requires k in t
    ensures Total(t, f) == f(k, t[k]) + Total(t - {k}, f)
    decreases |t|
  {
    var j :| j in t && Total(t, f) == f(j, t[j]) + Total(t - {j}, f);
    if j != k {
      TotalRemove(t - {j}, f, k);
      TotalRemove(t - {k}, f, j);
      assert (t - {j}) - {k} == (t - {k}) - {j};
    }
  }

  ghost function At<K(!new), V>(t: map<K, V>, f: (K, V) -> int, k: K): int {
    if k in t then f(k, t[k]) else 0
  }

  /** Storing a record moves the sum by the difference to what was there. */
  lemma TotalStore<K(!new), V>(t: map<K, V>, f: (K, V) -> int, k: K, v: V)
    ensures Total(t[k := v], f) == Total(t, f) - At(t, f, k) + f(k, v)
  {
    var u := t[k := v];
    assert u - {k} == t - {k};
    TotalRemove(u, f, k);
    if k in t {
      TotalRemove(t, f, k);
    } else {
      assert t - {k} == t;
    }
  }

  /** The sum depends only on what each record measures. */
  lemma {:induction false} TotalSame<K(!new), V>(t: map<K, V>, f: (K, V) -> int, u: map<K, V>, g: (K, V) -> int)
    requires t.Keys == u.Keys && forall k :: k in t ==> f(k, t[k]) == g(k, u[k])
    ensures Total(t, f) == Total(u, g)
    decreases |t|
  {
    if t != map[] {
      var k :| k in t;
      TotalRemove(t, f, k);
      TotalRemove(u, g, k);
      TotalSame(t - {k}, f, u - {k}, g);
    } else {
      assert u == map[];
    }
  }

  /** Tables with the same keys and records are the same table. */
  lemma SameTable<V>(t: map<int, V>, u: map<int, V>)
    requires t.Keys == u.Keys && forall k :: k in t ==> t[k] == u[k]
    ensures t == u
  {
    forall k | k in t.Keys ensures t[k] == u[k] {
    }
  }

  /** Records that measure nothing can be dropped. */
  lemma {:induction false} TotalDropped<K(!new), V>(t: map<K, V>, n: map<K, V>, f: (K, V) -> int)
    requires n.Keys <= t.Keys && forall k :: k in n ==> n[k] == t[k]
    requires forall k :: k in t && k !in n ==> f(k, t[k]) == 0
    ensures Total(n, f) == Total(t, f)
    decreases |t|
  {
    if t == map[] {
      assert n == map[];
    } else {
      var k :| k in t;
      TotalRemove(t, f, k);
      if k in n {
        TotalRemove(n, f, k);
        TotalDropped(t - {k}, n - {k}, f);
      } else {
        TotalDropped(t - {k}, n, f);
      }
    }
  }
}
