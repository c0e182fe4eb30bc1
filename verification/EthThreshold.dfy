/** Percentages of the notaries, and counting who voted for what. */
module EthThreshold {
  import opened Prelude
  import opened Arithmetic

  /** The runtime's notarization threshold, in percent. */
  const THRESHOLD: nat := 66

  /** `Percent::from_rational`: rounded down, and never above 100. */
  function Percent(p: nat, q: nat): nat {
    100 * Min(p, Max(q, 1)) / Max(q, 1)
  }

  predicate Reaches(count: nat, n: nat) { Percent(count, n) >= THRESHOLD }

  lemma PercentAtLeast(count: nat, n: nat, k: nat)
    requires count <= n && 0 < n
    ensures Percent(count, n) >= k <==> 100 * count >= k * n
  {
    DivBounds(100 * count, n);
    var d := 100 * count / n;
    if d >= k {
      MulMono(k, d, n, n);
    }
    if 100 * count >= k * n {
      DivAtLeast(100 * count, n, k);
    }
  }

  lemma PercentMonotone(c: nat, d: nat, n: nat)
    requires c <= d
    ensures Percent(c, n) <= Percent(d, n)
  {
    var m := Max(n, 1);
    DivBounds(100 * Min(c, m), m);
    DivAtLeast(100 * Min(d, m), m, 100 * Min(c, m) / m);
  }

  lemma ReachesMeaning(count: nat, n: nat)
    requires count <= n
    ensures Reaches(count, n) <==> 0 < n && 100 * count >= THRESHOLD * n
  {
    if 0 < n { PercentAtLeast(count, n, THRESHOLD); }
  }

  /** Who voted `v`. */
  function Voters<K, V(==)>(votes: map<K, V>, v: V): set<K> {
    set k | k in votes && votes[k] == v
  }

  /** Every result voted for, with the number of its votes. */
  function Recount<K, V(==)>(votes: map<K, V>): map<V, nat> {
    map v | v in votes.Values :: |Voters(votes, v)|
  }

  function Bump<V>(tally: map<V, nat>, v: V): map<V, nat> { tally[v := Get(tally, v, 0) + 1] }

  lemma VotersInValues<K, V>(votes: map<K, V>, v: V)
    ensures v in votes.Values <==> Voters(votes, v) != {}
    ensures |Voters(votes, v)| == Get(Recount(votes), v, 0)
  {
    if v in votes.Values {
      var k :| k in votes && votes[k] == v;
      assert k in Voters(votes, v);
    }
  }

  /** A first vote by `k` adds exactly one to the recount. */
  lemma FreshVote<K, V>(votes: map<K, V>, k: K, v: V)
    requires k !in votes
    ensures Recount(votes[k := v]) == Bump(Recount(votes), v)
  {
    var (next, bumped) := (votes[k := v], Bump(Recount(votes), v));
    assert Voters(next, v) == Voters(votes, v) + {k};
    VotersInValues(next, v);
    VotersInValues(votes, v);
    forall w ensures (w in Recount(next) <==> w in bumped) && Get(Recount(next), w, 0) == Get(bumped, w, 0) {
      if w != v {
        assert Voters(next, w) == Voters(votes, w);
        VotersInValues(next, w);
        VotersInValues(votes, w);
      }
    }
    assert forall w :: w in bumped ==> bumped[w] == Get(bumped, w, 0) && Recount(next)[w] == Get(Recount(next), w, 0);
  }

  /** A repeated vote by `k` does not: adding one no longer matches the recount. */
  lemma RepeatedVote<K, V>(votes: map<K, V>, k: K, v: V)
    requires k in votes
    ensures Recount(votes[k := v]) != Bump(Recount(votes), v)
  {
    var (next, was) := (votes[k := v], votes[k]);
    VotersInValues(next, was);
    VotersInValues(votes, was);
    if was == v {
      assert next == votes;
    } else {
      assert Voters(votes, was) == Voters(next, was) + {k};
      assert Get(Bump(Recount(votes), v), was, 0) == |Voters(votes, was)|;
    }
  }
}
