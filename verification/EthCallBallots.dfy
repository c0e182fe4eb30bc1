/** Counting ballots: what a running tally says about the notaries behind it. */
module EthCallBallots {
  import opened Prelude
  import opened MapSum
  import opened EthThreshold
  import opened EthCallSpec

  /** How many of the ballots are for `r`. */
  function Count(bs: seq<Ballot>, r: CallResult): nat {
    if bs == [] then 0 else Count(bs[..|bs| - 1], r) + if bs[|bs| - 1].result == r then 1 else 0
  }

  /** The last vote of each notary. */
  function LastVotes(bs: seq<Ballot>): map<Notary, CallResult> {
    if bs == [] then map[] else LastVotes(bs[..|bs| - 1])[bs[|bs| - 1].notary := bs[|bs| - 1].result]
  }

  /** The tally counts exactly these ballots. */
  ghost predicate Tallied(tally: map<CallResult, nat>, bs: seq<Ballot>) {
    && (forall r :: Get(tally, r, 0) == Count(bs, r))
    && (forall r :: r in tally ==> 0 < tally[r])
    && Sum(tally) == |bs|
  }

  lemma BumpSum<V>(tally: map<V, nat>, v: V)
    ensures Sum(Bump(tally, v)) == Sum(tally) + 1
  {
    SumUpdate(tally, v, Get(tally, v, 0) + 1);
  }

  lemma CountLast(bs: seq<Ballot>, b: Ballot, r: CallResult)
    ensures Count(bs + [b], r) == Count(bs, r) + if b.result == r then 1 else 0
    ensures LastVotes(bs + [b]) == LastVotes(bs)[b.notary := b.result]
  {
    assert (bs + [b])[..|bs|] == bs;
  }

  /** One more vote, one more in the tally: whoever cast it. */
  lemma TallyFollows(tally: map<CallResult, nat>, bs: seq<Ballot>, b: Ballot)
    requires Tallied(tally, bs)
    ensures Tallied(Bump(tally, b.result), bs + [b])
  {
    BumpSum(tally, b.result);
    forall r ensures Get(Bump(tally, b.result), r, 0) == Count(bs + [b], r) {
      CountLast(bs, b, r);
    }
  }

  lemma {:induction false} CountAtMost(bs: seq<Ballot>, r: CallResult)
    ensures Count(bs, r) <= |bs|
  {
    if bs != [] { CountAtMost(bs[..|bs| - 1], r); }
  }

  lemma {:induction false} CountConcat(bs: seq<Ballot>, more: seq<Ballot>, r: CallResult)
    ensures Count(bs + more, r) == Count(bs, r) + Count(more, r)
    decreases |more|
  {
    if more == [] {
      assert bs + more == bs;
    } else {
      var front := more[..|more| - 1];
      assert bs + more == (bs + front) + [more[|more| - 1]];
      CountLast(bs + front, more[|more| - 1], r);
      CountConcat(bs, front, r);
    }
  }

  lemma {:induction false} CountAll(more: seq<Ballot>, r: CallResult)
    requires forall i :: 0 <= i < |more| ==> more[i].result == r
    ensures Count(more, r) == |more|
  {
    if more != [] { CountAll(more[..|more| - 1], r); }
  }

  // ---- Distinct notaries ----

  /** Nobody votes again after having voted `r`. */
  predicate NoSecondThoughts(bs: seq<Ballot>, r: CallResult) {
    forall i, j :: 0 <= i < j < |bs| && bs[i].result == r ==> bs[j].notary != bs[i].notary
  }

  lemma {:induction false} VoterCastBallot(bs: seq<Ballot>, r: CallResult, k: Notary)
    requires k in Voters(LastVotes(bs), r)
    ensures exists i :: 0 <= i < |bs| && bs[i] == Ballot(k, r)
  {
    var (front, last) := (bs[..|bs| - 1], bs[|bs| - 1]);
    if last.notary == k {
      assert bs[|bs| - 1] == Ballot(k, r);
    } else {
      VoterCastBallot(front, r, k);
      var i :| 0 <= i < |front| && front[i] == Ballot(k, r);
      assert bs[i] == Ballot(k, r);
    }
  }

  lemma {:induction false} CastBallotVotes(bs: seq<Ballot>, r: CallResult, i: nat)
    requires NoSecondThoughts(bs, r) && i < |bs| && bs[i].result == r
    ensures bs[i].notary in Voters(LastVotes(bs), r)
  {
    var front := bs[..|bs| - 1];
    if i < |front| {
      assert front[i] == bs[i];
      CastBallotVotes(front, r, i);
    }
  }

  /** Whether the notary of the next ballot already stands behind `r`, given that nobody who did has
      voted again. */
  lemma StandsBehind(bs: seq<Ballot>, r: CallResult, b: Ballot)
    requires NoSecondThoughts(bs, r)
    ensures b.notary !in Voters(LastVotes(bs), r) <==> NoSecondThoughts(bs + [b], r)
  {
    var next := bs + [b];
    if b.notary in Voters(LastVotes(bs), r) {
      VoterCastBallot(bs, r, b.notary);
      var i :| 0 <= i < |bs| && bs[i] == Ballot(b.notary, r);
      assert next[i].result == r && next[|bs|].notary == next[i].notary;
    } else {
      forall i, j | 0 <= i < j < |next| && next[i].result == r ensures next[j].notary != next[i].notary {
        if j == |bs| { CastBallotVotes(bs, r, i); }
      }
    }
  }

  lemma VotersAfter(votes: map<Notary, CallResult>, k: Notary, v: CallResult, r: CallResult)
    ensures |Voters(votes[k := v], r)| ==
      |Voters(votes, r)| - (if k in Voters(votes, r) then 1 else 0) + (if v == r then 1 else 0)
  {
    var (before, after) := (Voters(votes, r), Voters(votes[k := v], r));
    if v == r {
      assert after == before + {k};
    } else {
      assert after == before - {k};
    }
  }

  /** The distinct notaries behind a result never exceed its count, and match it exactly when nobody
      who voted for it has voted again. */
  lemma {:induction false} DistinctSupport(bs: seq<Ballot>, r: CallResult)
    ensures |Voters(LastVotes(bs), r)| <= Count(bs, r)
    ensures |Voters(LastVotes(bs), r)| == Count(bs, r) <==> NoSecondThoughts(bs, r)
  {
    if bs != [] {
      var (front, last) := (bs[..|bs| - 1], bs[|bs| - 1]);
      assert bs == front + [last];
      DistinctSupport(front, r);
      CountLast(front, last, r);
      VotersAfter(LastVotes(front), last.notary, last.result, r);
      if NoSecondThoughts(front, r) {
        StandsBehind(front, r, last);
      } else {
        var i, j :| 0 <= i < j < |front| && front[i].result == r && front[j].notary == front[i].notary;
        assert bs[i] == front[i] && bs[j] == front[j];
      }
    }
  }

  // ---- The threshold ----

  lemma ReachesMonotone(c: nat, d: nat, n: nat)
    requires c <= d && Reaches(c, n)
    ensures Reaches(d, n)
  {
    PercentMonotone(c, d, n);
  }

  /** Two results cannot both reach the threshold with at most `n` counted votes. */
  lemma OneWinner(tally: map<CallResult, nat>, n: nat, r1: CallResult, r2: CallResult)
    requires Sum(tally) <= Max(n, 1) && r1 in tally && r2 in tally && Reaches(tally[r1], n) && Reaches(tally[r2], n)
    ensures r1 == r2
  {
    var m := Max(n, 1);
    SumAtLeast(tally, r1);
    SumAtLeast(tally, r2);
    ReachesMeaning(tally[r1], m);
    ReachesMeaning(tally[r2], m);
    if r1 != r2 { SumAtLeastTwo(tally, r1, r2); }
  }

  /** Some way of casting the outstanding votes brings some result, seen or unseen, to the threshold. */
  ghost predicate Winnable(bs: seq<Ballot>, n: nat) {
    exists more: seq<Ballot>, r :: |bs| + |more| == n && Reaches(Count(bs + more, r), n)
  }

  /** The no-consensus test is exact: with a vote counted, some seen result could still win by taking
      all outstanding votes if and only if any result could win in any way. */
  lemma CanReachIsExact(tally: map<CallResult, nat>, bs: seq<Ballot>, n: nat)
    requires Tallied(tally, bs) && bs != [] && |bs| <= n
    ensures CanReach(tally, n) <==> Winnable(bs, n)
  {
    if CanReach(tally, n) {
      var r :| r in tally && Reaches(tally[r] + SatSub(n, Sum(tally)), n);
      var more := seq(n - |bs|, _ => Ballot(0, r));
      CountAll(more, r);
      CountConcat(bs, more, r);
      assert |bs| + |more| == n && Reaches(Count(bs + more, r), n);
    }
    if Winnable(bs, n) {
      var more: seq<Ballot>, r :| |bs| + |more| == n && Reaches(Count(bs + more, r), n);
      CountConcat(bs, more, r);
      CountAtMost(more, r);
      var any := bs[|bs| - 1].result;
      var seen := if r in tally then r else any;
      assert 0 < Count(bs, any) && any in tally by { assert Get(tally, any, 0) == Count(bs, any); }
      assert Get(tally, r, 0) == Count(bs, r);
      ReachesMonotone(Count(bs + more, r), tally[seen] + SatSub(n, Sum(tally)), n);
    }
  }

  // ---- Notaries who vote once ----

  predicate OncePerNotary(bs: seq<Ballot>) { forall i, j :: 0 <= i < j < |bs| ==> bs[i].notary != bs[j].notary }

  lemma {:induction false} Enumerate(s: set<Notary>) returns (q: seq<Notary>)
    ensures |q| == |s| && Distinct(q) && forall k :: k in q <==> k in s
    decreases |s|
  {
    if s == {} {
      q := [];
    } else {
      var k :| k in s;
      var rest := Enumerate(s - {k});
      q := rest + [k];
      assert forall x :: x in q <==> x in rest || x == k;
    }
  }

  lemma {:induction false} VotersOf(bs: seq<Ballot>)
    ensures |LastVotes(bs).Keys| <= |bs|
    ensures forall i :: 0 <= i < |bs| ==> bs[i].notary in LastVotes(bs)
  {
    if bs != [] {
      var (front, last) := (bs[..|bs| - 1], bs[|bs| - 1]);
      VotersOf(front);
      assert LastVotes(bs).Keys == LastVotes(front).Keys + {last.notary};
      forall i | 0 <= i < |bs| ensures bs[i].notary in LastVotes(bs) {
        if i < |front| { assert front[i] == bs[i]; }
      }
    }
  }

  /** Ballots for `r` by notaries who have not voted. */
  lemma FreshBallots(bs: seq<Ballot>, k: nat, notaries: set<Notary>, r: CallResult) returns (more: seq<Ballot>)
    requires |bs| + k <= |notaries|
    ensures |more| == k && forall i :: 0 <= i < |more| ==> more[i].result == r && more[i].notary in notaries
    ensures OncePerNotary(more)
    ensures forall i, j :: 0 <= i < |bs| && 0 <= j < |more| ==> bs[i].notary != more[j].notary
  {
    VotersOf(bs);
    var voted := LastVotes(bs).Keys;
    var left := notaries - voted;
    assert notaries == left + (notaries * voted);
    SubsetSize(notaries * voted, voted);
    var q := Enumerate(left);
    more := seq(k, i requires 0 <= i < |q| => Ballot(q[i], r));
    forall j | 0 <= j < |more| ensures more[j].result == r && more[j].notary in notaries && more[j].notary !in voted {
      assert more[j].notary == q[j] && q[j] in q;
    }
  }

  /** If there are enough notaries, the outstanding votes can be cast by those who have not voted, one
      each: the test is exact for notaries who vote once, too. */
  lemma WinnableOnce(bs: seq<Ballot>, n: nat, notaries: set<Notary>, r: CallResult) returns (more: seq<Ballot>)
    requires OncePerNotary(bs) && |bs| <= n <= |notaries| && Reaches(Count(bs, r) + (n - |bs|), n)
    ensures |bs| + |more| == n && Reaches(Count(bs + more, r), n)
    ensures OncePerNotary(bs + more) && forall i :: 0 <= i < |more| ==> more[i].notary in notaries
  {
    more := FreshBallots(bs, n - |bs|, notaries, r);
    CountAll(more, r);
    CountConcat(bs, more, r);
    var all := bs + more;
    forall i, j | 0 <= i < j < |all| ensures all[i].notary != all[j].notary {
      assert all[i] == if i < |bs| then bs[i] else more[i - |bs|];
      assert all[j] == if j < |bs| then bs[j] else more[j - |bs|];
    }
  }
}
