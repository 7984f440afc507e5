/** `SUM(size)` over the rows of a table, the rows being the entries of a map. */
module Totals {

  ghost function Total<K(!new)>(m: map<K, nat>): nat
    decreases |m|
  {
    if m == map[] then 0
    else
      var k :| k in m;
      assert (m - {k}).Keys == m.Keys - {k};
      m[k] + Total(m - {k})
  }

  /** The sum does not depend on the order in which rows are visited. */
  lemma {:induction false} TotalRemove<K(!new)>(m: map<K, nat>, k: K)
    requires k in m
    ensures Total(m) == m[k] + Total(m - {k})
    decreases |m|
  {
    var p :| p in m && Total(m) == m[p] + Total(m - {p});
    if p != k {
      assert (m - {p}).Keys == m.Keys - {p};
      assert (m - {k}).Keys == m.Keys - {k};
      TotalRemove(m - {p}, k);
      TotalRemove(m - {k}, p);
      assert m - {p} - {k} == m - {k} - {p};
    }
  }

  lemma TotalInsert<K(!new)>(m: map<K, nat>, k: K, v: nat)
    requires k !in m
    ensures Total(m[k := v]) == Total(m) + v
  {
    TotalRemove(m[k := v], k);
    assert m[k := v] - {k} == m;
  }

  /** If every entry of `small` is matched by its own, no smaller, entry of `big`, then
      `small` sums to no more than `big`. */
  lemma {:induction false} TotalEmbeds<K(!new), L(!new)>(small: map<K, nat>, big: map<L, nat>, f: map<K, L>)
    requires forall k <- small :: k in f && f[k] in big && small[k] <= big[f[k]]
    requires forall k, l | k in small && l in small && k != l :: f[k] != f[l]
    ensures Total(small) <= Total(big)
    decreases |small|
  {
    if small != map[] {
      var k :| k in small && Total(small) == small[k] + Total(small - {k});
      assert (small - {k}).Keys == small.Keys - {k};
      TotalEmbeds(small - {k}, big - {f[k]}, f);
      TotalRemove(big, f[k]);
    }
  }

  /** Dropping rows, or shrinking them, never increases the sum. */
  lemma TotalMonotone<K(!new)>(small: map<K, nat>, big: map<K, nat>)
    requires forall k <- small :: k in big && small[k] <= big[k]
    ensures Total(small) <= Total(big)
  {
    TotalEmbeds(small, big, map k | k in small :: k);
  }

  /** A table split in two sums to the sum of its parts. */
  lemma {:induction false} TotalSplit<K(!new)>(m: map<K, nat>, a: map<K, nat>, b: map<K, nat>)
    requires forall k :: k in m <==> k in a || k in b
    requires forall k :: !(k in a && k in b)
    requires forall k <- a :: m[k] == a[k]
    requires forall k <- b :: m[k] == b[k]
    ensures Total(m) == Total(a) + Total(b)
    decreases |m|
  {
    if m == map[] {
      assert a == map[] && b == map[];
    } else {
      var k :| k in m && Total(m) == m[k] + Total(m - {k});
      assert (m - {k}).Keys == m.Keys - {k};
      if k in a {
        TotalRemove(a, k);
        TotalSplit(m - {k}, a - {k}, b);
      } else {
        TotalRemove(b, k);
        TotalSplit(m - {k}, a, b - {k});
      }
    }
  }

  lemma {:induction false} TotalBounded<K(!new)>(m: map<K, nat>, bound: nat)
    requires forall k <- m :: m[k] <= bound
    ensures Total(m) <= |m| * bound
    decreases |m|
  {
    if m != map[] {
      var k :| k in m && Total(m) == m[k] + Total(m - {k});
      assert (m - {k}).Keys == m.Keys - {k};
      assert |m - {k}| == |m| - 1 by {
        assert |(m - {k}).Keys| == |m.Keys| - 1;
      }
      TotalBounded(m - {k}, bound);
      Distribute(|m|, bound);
    }
  }

  lemma Distribute(n: nat, bound: nat)
    ensures n * bound == (n - 1) * bound + bound
  {
  }
}
