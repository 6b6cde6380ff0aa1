/** Sums over finite sets, used to count list lengths and caps over partners, and sizes of subsets. */
module Sums {

  ghost function Sum<K(!new)>(f: K -> int, ks: set<K>): int
    decreases |ks|
  {
    if ks == {} then 0
    else
      var k :| k in ks;
      f(k) + Sum(f, ks - {k})
  }

  /** The order in which the elements are picked does not matter. */
  lemma {:induction false} SumPick<K(!new)>(f: K -> int, ks: set<K>, k: K)
    requires k in ks
    ensures Sum(f, ks) == f(k) + Sum(f, ks - {k})
    decreases |ks|
  {
    var j :| j in ks && Sum(f, ks) == f(j) + Sum(f, ks - {j});
    if j != k {
      SumPick(f, ks - {j}, k);
      SumPick(f, ks - {k}, j);
      assert ks - {j} - {k} == ks - {k} - {j};
    }
  }

  lemma {:induction false} SumMonotone<K(!new)>(f: K -> int, g: K -> int, ks: set<K>)
    requires forall k :: k in ks ==> f(k) <= g(k)
    ensures Sum(f, ks) <= Sum(g, ks)
    decreases |ks|
  {
    if ks != {} {
      var k :| k in ks;
      SumPick(f, ks, k);
      SumPick(g, ks, k);
      SumMonotone(f, g, ks - {k});
    }
  }

  /** A zero-one function sums to the number of ones. */
  lemma {:induction false} SumCounts<K(!new)>(f: K -> int, ks: set<K>, ones: set<K>)
    requires ones <= ks && forall k :: k in ks ==> f(k) == if k in ones then 1 else 0
    ensures Sum(f, ks) == |ones|
    decreases |ks|
  {
    if ks != {} {
      var k :| k in ks;
      SumPick(f, ks, k);
      SumCounts(f, ks - {k}, ones - {k});
      if k in ones {
        assert |ones| == |ones - {k}| + 1;
      } else {
        assert ones - {k} == ones;
      }
    }
  }

  lemma {:induction false} SumZero<K(!new)>(f: K -> int, ks: set<K>, keep: set<K>)
    requires keep <= ks && forall k :: k in ks - keep ==> f(k) == 0
    ensures Sum(f, ks) == Sum(f, keep)
    decreases |ks|
  {
    if ks - keep == {} {
      assert ks == keep;
    } else {
      var k :| k in ks - keep;
      SumPick(f, ks, k);
      SumZero(f, ks - {k}, keep);
    }
  }

  lemma SubsetCard<T>(a: set<T>, b: set<T>)
    requires a <= b
    ensures |a| <= |b|
  {
    assert b == a + (b - a);
  }
}
