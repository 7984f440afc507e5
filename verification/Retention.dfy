/** `ORDER BY version DESC LIMIT n`: which versions survive retention. */
module Retention {

  function Above(versions: set<int>, v: int): set<int> {
    set u | u in versions && u > v
  }

  /** The rows a descending order with a limit of `n` returns: those with fewer than `n` rows above them. */
  function Kept(versions: set<int>, n: nat): set<int> {
    set v | v in versions && |Above(versions, v)| < n
  }

  lemma SubsetSizeOf<T>(a: set<T>, b: set<T>)
    requires a <= b
    ensures |a| <= |b|
  {
    assert b == a + (b - a);
    assert |b| == |a| + |b - a|;
  }

  lemma SubsetSize(a: set<int>, b: set<int>)
    requires a <= b
    ensures |a| <= |b|
    ensures a < b ==> |a| < |b|
  {
    assert b == a + (b - a);
    assert |b| == |a| + |b - a|;
    if a < b {
      assert b - a != {};
    }
  }

  lemma Member<T>(s: set<T>) returns (x: T)
    requires s != {}
    ensures x in s
  {
    x :| x in s;
  }

  lemma {:induction false} Least(versions: set<int>) returns (m: int)
    requires versions != {}
    ensures m in versions
    ensures forall v | v in versions :: m <= v
  {
    var x := Member(versions);
    if versions == {x} {
      m := x;
    } else {
      var r := Least(versions - {x});
      m := if r < x then r else x;
      forall v | v in versions ensures m <= v {
        assert v == x || v in versions - {x};
      }
    }
  }

  /** Exactly `n` versions are kept, or all of them when there are fewer. */
  lemma {:induction false} KeptSize(versions: set<int>, n: nat)
    ensures |Kept(versions, n)| == if |versions| < n then |versions| else n
  {
    if versions != {} {
      var m := Least(versions);
      var rest := versions - {m};
      KeptSize(rest, n);
      assert Above(versions, m) == rest;
      forall v | v in rest ensures Above(versions, v) == Above(rest, v) {}
      if |rest| < n {
        assert Kept(versions, n) == Kept(rest, n) + {m};
      } else {
        assert Kept(versions, n) == Kept(rest, n);
      }
    } else {
      assert Kept(versions, n) == {};
    }
  }

  /** Every kept version is larger than every dropped one. */
  lemma KeptAreLargest(versions: set<int>, n: nat)
    ensures forall v, w | v in Kept(versions, n) && w in versions - Kept(versions, n) :: w < v
  {
    forall v, w | v in Kept(versions, n) && w in versions - Kept(versions, n) ensures w < v {
      if v < w {
        SubsetSize(Above(versions, w), Above(versions, v));
      }
    }
  }

  /** The limit keeps the newest version exactly when it is positive. */
  lemma NewestKept(versions: set<int>, newest: int, n: nat)
    requires newest in versions && forall v <- versions :: v <= newest
    ensures newest in Kept(versions, n) <==> n > 0
  {
    assert Above(versions, newest) == {};
  }

  /** Below the limit nothing is dropped. */
  lemma KeptAll(versions: set<int>, n: nat)
    requires |versions| <= n
    ensures Kept(versions, n) == versions
  {
    KeptSize(versions, n);
    SubsetSize(Kept(versions, n), versions);
  }
}
