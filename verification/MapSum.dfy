/** The sum of the values of a finite map, and how single-entry updates change it. */
module MapSum {
  import opened Prelude

  ghost function Sum<K>(m: map<K, nat>): nat
    decreases |m|
  {
    if m == map[] then 0
    else
      var k :| k in m;
      m[k] + Sum(m - {k})
  }

  /** The sum does not depend on which entry is taken out first. */
  lemma {:induction false} SumRemove<K>(m: map<K, nat>, k: K)
    requires k in m
    ensures Sum(m) == m[k] + Sum(m - {k})
    decreases |m|
  {
    var j :| j in m && Sum(m) == m[j] + Sum(m - {j});
    if j != k {
      assert m - {j} - {k} == m - {k} - {j};
      assert |m - {j}| < |m| && |m - {k}| < |m| by {
        assert (m - {j}).Keys == m.Keys - {j};
        assert (m - {k}).Keys == m.Keys - {k};
      }
      SumRemove(m - {j}, k);
      SumRemove(m - {k}, j);
    }
  }

  lemma SumUpdate<K>(m: map<K, nat>, k: K, v: nat)
    ensures Sum(m[k := v]) + Get(m, k, 0) == Sum(m) + v
  {
    SumRemove(m[k := v], k);
    assert m[k := v] - {k} == m - {k};
    if k in m {
      SumRemove(m, k);
    } else {
      assert m - {k} == m;
    }
  }

  lemma SumErase<K>(m: map<K, nat>, k: K)
    ensures Sum(m - {k}) + Get(m, k, 0) == Sum(m)
  {
    if k in m {
      SumRemove(m, k);
    } else {
      assert m - {k} == m;
    }
  }

  lemma SumAtLeast<K>(m: map<K, nat>, k: K)
    ensures Get(m, k, 0) <= Sum(m)
  {
    SumErase(m, k);
  }

  /** Two entries together are bounded by the sum. */
  lemma SumAtLeastTwo<K>(m: map<K, nat>, j: K, k: K)
    requires j != k
    ensures Get(m, j, 0) + Get(m, k, 0) <= Sum(m)
  {
    SumErase(m, j);
    SumAtLeast(m - {j}, k);
  }

  lemma {:induction false} SumZero<K>(m: map<K, nat>)
    requires forall k :: k in m ==> m[k] == 0
    ensures Sum(m) == 0
    decreases |m|
  {
    if m != map[] {
      var k :| k in m;
      SumRemove(m, k);
      assert (m - {k}).Keys == m.Keys - {k};
      SumZero(m - {k});
    }
  }
}
