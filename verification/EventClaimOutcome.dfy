/** How votes decide an event claim, over any run: exactly when it is closed, and exactly when it stays
    pending for good. */
module EventClaimOutcome {
  import opened Prelude
  import opened EthThreshold
  import opened EventClaimSpec
  import opened EventClaimSafety

  predicate Decided(votes: map<Notary, Verdict>, n: nat) { Rejected(votes, n) || Approved(votes, n) }

  /** The votes `es` adds to those of claim `id`: the first of each notary. */
  function Cast(es: seq<Event>, id: ClaimId, votes: map<Notary, Verdict>): map<Notary, Verdict>
    decreases |es|
  {
    if es == [] then votes
    else
      var e := es[0];
      Cast(es[1..], id, if e.Vote? && e.id == id && e.notary !in votes then votes[e.notary := e.verdict] else votes)
  }

  predicate Extends(more: map<Notary, Verdict>, votes: map<Notary, Verdict>) {
    forall k :: k in votes ==> k in more && more[k] == votes[k]
  }

  lemma {:induction false} CastExtends(es: seq<Event>, id: ClaimId, votes: map<Notary, Verdict>)
    ensures Extends(Cast(es, id, votes), votes)
    decreases |es|
  {
    if es != [] {
      var e := es[0];
      CastExtends(es[1..], id, if e.Vote? && e.id == id && e.notary !in votes then votes[e.notary := e.verdict]
                  else votes);
    }
  }

  /** More votes never undo a decision. */
  lemma DecidedStays(votes: map<Notary, Verdict>, more: map<Notary, Verdict>, n: nat)
    requires Extends(more, votes) && Decided(votes, n)
    ensures Decided(more, n)
  {
    SubsetSize(Voters(votes, Valid), Voters(more, Valid));
    SubsetSize(Against(votes), Against(more));
    PercentMonotone(Yays(votes), Yays(more), n);
    PercentMonotone(Nays(votes), Nays(more), n);
  }

  // ---- Closed claims ----

  /** A closed claim never comes back. */
  lemma StaysClosedStep(s: Claims, n: nat, e: Event, id: ClaimId)
    requires id < s.nextId && id !in s.claims
    ensures id < Step(s, n, e).nextId && id !in Step(s, n, e).claims
  {
    match e
    case SubmitClaim(c) =>
    case Vote(x, v, notary, now) =>
      var votes := s.Votes(x)[notary := v];
      if x !in s.claims || Rejected(votes, n) {
      } else if Approved(votes, n) {
      } else {
      }
    case PruneAt(_) =>
    case SetDeadline(_) =>
  }

  lemma {:induction false} StaysClosed(s: Claims, n: nat, es: seq<Event>, id: ClaimId)
    requires id < s.nextId && id !in s.claims
    ensures id !in Run(s, n, es).claims
    decreases |es|
  {
    if es != [] {
      StaysClosedStep(s, n, es[0], id);
      StaysClosed(Step(s, n, es[0]), n, es[1..], id);
    }
  }

  // ---- Open claims ----

  /** A step on a pending claim: it is closed exactly by an admitted vote that decides it. */
  lemma PendingStep(s: Claims, n: nat, e: Event, id: ClaimId, notaries: set<Notary>)
    requires Inv(s, notaries) && id in s.claims && (e.Vote? ==> e.notary in notaries)
    ensures
      var t := Step(s, n, e);
      var votes := Cast([e], id, s.Votes(id));
      && (id in t.claims ==> t.Votes(id) == votes && t.claims[id] == s.claims[id])
      && (id in t.claims <==> votes == s.Votes(id) || !Decided(votes, n))
  {
    CastOne(e, id, s.Votes(id));
    if e.Vote? && e.id == id && e.notary !in s.Votes(id) {
      VoteOnIt(s, n, e, notaries);
    } else if e.Vote? {
      VoteElsewhere(s, n, e, id, notaries);
    } else {
      OtherStep(s, n, e, id);
    }
  }

  lemma CastOne(e: Event, id: ClaimId, votes: map<Notary, Verdict>)
    ensures Cast([e], id, votes) ==
      if e.Vote? && e.id == id && e.notary !in votes then votes[e.notary := e.verdict] else votes
  {
  }

  lemma OtherStep(s: Claims, n: nat, e: Event, id: ClaimId)
    requires id < s.nextId && id in s.claims && !e.Vote?
    ensures
      var t := Step(s, n, e);
      id in t.claims && t.Votes(id) == s.Votes(id) && t.claims[id] == s.claims[id]
  {
    match e
    case SubmitClaim(c) =>
    case PruneAt(_) =>
    case SetDeadline(_) =>
  }

  lemma VoteOnIt(s: Claims, n: nat, e: Event, notaries: set<Notary>)
    requires Inv(s, notaries) && e.Vote? && e.id in s.claims && e.notary in notaries && Admits(s, e.id, e.notary)
    ensures
      var (t, votes) := (Step(s, n, e), s.Votes(e.id)[e.notary := e.verdict]);
      && (e.id in t.claims <==> !Decided(votes, n))
      && (e.id in t.claims ==> t.Votes(e.id) == votes && t.claims[e.id] == s.claims[e.id])
  {
    assert e.id in s.data;
    var votes := s.Votes(e.id)[e.notary := e.verdict];
    var t := Step(s, n, e);
    if Rejected(votes, n) {
      assert t == Close(s, e.id, false);
    } else if Approved(votes, n) {
      assert t == Approve(s, e.id, e.now);
    } else {
      assert t == s.(votes := s.votes[e.id := votes]);
    }
  }

  lemma CloseElsewhere(s: Claims, x: ClaimId, success: bool, id: ClaimId)
    requires x in s.claims && x in s.data && id in s.claims && id != x
    ensures
      var t := Close(s, x, success);
      id in t.claims && t.claims[id] == s.claims[id] && t.Votes(id) == s.Votes(id)
  {
  }

  lemma VoteElsewhere(s: Claims, n: nat, e: Event, id: ClaimId, notaries: set<Notary>)
    requires Inv(s, notaries) && e.Vote? && id in s.claims && (e.id != id || !Admits(s, id, e.notary))
    ensures
      var t := Step(s, n, e);
      id in t.claims && t.claims[id] == s.claims[id] && t.Votes(id) == s.Votes(id)
  {
    if e.id != id && Admits(s, e.id, e.notary) && e.id in s.claims {
      assert e.id in s.data;
      VoteOnOther(s, n, e, id);
    } else {
      assert Step(s, n, e) == s;
    }
  }

  lemma VoteOnOther(s: Claims, n: nat, e: Event, id: ClaimId)
    requires e.Vote? && id in s.claims && e.id != id && e.id in s.claims && e.id in s.data
    ensures
      var t := Step(s, n, e);
      id in t.claims && t.claims[id] == s.claims[id] && t.Votes(id) == s.Votes(id)
  {
    var votes := s.Votes(e.id)[e.notary := e.verdict];
    var t := Step(s, n, e);
    if !Admits(s, e.id, e.notary) {
      assert t == s;
    } else if Rejected(votes, n) {
      assert t == Close(s, e.id, false);
      CloseElsewhere(s, e.id, false, id);
    } else if Approved(votes, n) {
      assert t == Approve(s, e.id, e.now);
      CloseElsewhere(s, e.id, true, id);
    } else {
      assert t == s.(votes := s.votes[e.id := votes]);
    }
  }

  lemma CastStep(es: seq<Event>, id: ClaimId, votes: map<Notary, Verdict>)
    requires es != []
    ensures Cast(es, id, votes) == Cast(es[1..], id, Cast([es[0]], id, votes))
  {
  }

  /** What a run from `s` with the votes `votes` on `id` ends in. */
  ghost predicate Ends(s: Claims, t: Claims, n: nat, id: ClaimId, votes: map<Notary, Verdict>)
    requires id in s.claims
  {
    && (id in t.claims <==> !Decided(votes, n))
    && (id in t.claims ==> t.Votes(id) == votes && t.claims[id] == s.claims[id])
  }

  lemma EndsFrom(s: Claims, now: Claims, t: Claims, n: nat, id: ClaimId, votes: map<Notary, Verdict>)
    requires id in s.claims && id in now.claims && now.claims[id] == s.claims[id] && Ends(now, t, n, id, votes)
    ensures Ends(s, t, n, id, votes)
  {
  }

  lemma ClosedEnds(s: Claims, n: nat, es: seq<Event>, id: ClaimId, start: Claims, votes: map<Notary, Verdict>)
    requires id in start.claims && id < s.nextId && id !in s.claims && Decided(votes, n)
    ensures Ends(start, Run(s, n, es), n, id, Cast(es, id, votes))
  {
    StaysClosed(s, n, es, id);
    CastExtends(es, id, votes);
    DecidedStays(votes, Cast(es, id, votes), n);
  }

  lemma NextIdGrows(s: Claims, n: nat, e: Event)
    ensures s.nextId <= Step(s, n, e).nextId
  {
  }

  lemma EnabledRest(notaries: set<Notary>, es: seq<Event>)
    requires Enabled(notaries, es) && es != []
    ensures (es[0].Vote? ==> es[0].notary in notaries) && Enabled(notaries, es[1..])
  {
  }

  /** One step of a run: either the claim is still undecided with the votes so far, or it is closed and
      they decide it. */
  lemma PendingTurn(s: Claims, n: nat, es: seq<Event>, id: ClaimId, notaries: set<Notary>)
    requires Inv(s, notaries) && Enabled(notaries, es) && es != [] && id in s.claims && !Decided(s.Votes(id), n)
    ensures
      var now := Step(s, n, es[0]);
      && Inv(now, notaries) && id < now.nextId && Enabled(notaries, es[1..])
      && (id in now.claims ==>
            && now.claims[id] == s.claims[id] && !Decided(now.Votes(id), n)
            && Cast(es, id, s.Votes(id)) == Cast(es[1..], id, now.Votes(id)))
      && (id !in now.claims ==>
            var votes := Cast([es[0]], id, s.Votes(id));
            Decided(votes, n) && Cast(es, id, s.Votes(id)) == Cast(es[1..], id, votes))
  {
    CastStep(es, id, s.Votes(id));
    EnabledRest(notaries, es);
    StepKeeps(s, n, es[0], notaries);
    PendingStep(s, n, es[0], id, notaries);
    NextIdGrows(s, n, es[0]);
  }

  /** Over any run, votes of other claims and refused votes included: an undecided claim is still pending
      if and only if the votes cast on it, one per notary, do not decide it. */
  lemma {:induction false} PendingExactly(s: Claims, n: nat, es: seq<Event>, id: ClaimId, notaries: set<Notary>)
    requires Inv(s, notaries) && Enabled(notaries, es) && id in s.claims && !Decided(s.Votes(id), n)
    ensures Ends(s, Run(s, n, es), n, id, Cast(es, id, s.Votes(id)))
    decreases |es|
  {
    if es != [] {
      PendingTurn(s, n, es, id, notaries);
      RunOne(s, n, es);
      var now := Step(s, n, es[0]);
      if id in now.claims {
        PendingExactly(now, n, es[1..], id, notaries);
        EndsFrom(s, now, Run(now, n, es[1..]), n, id, Cast(es, id, s.Votes(id)));
      } else {
        ClosedEnds(now, n, es[1..], id, s, Cast([es[0]], id, s.Votes(id)));
      }
    }
  }

  // ---- Stuck claims ----

  /** With one vote of each of `n` notaries, neither test holds exactly when the yays lie strictly between
      65% and 66%: the roundings of the two tests leave a gap. */
  lemma StuckAfterAllVotes(votes: map<Notary, Verdict>, n: nat)
    requires |votes| == n && 0 < n
    ensures !Decided(votes, n) <==> (THRESHOLD - 1) * n < 100 * Yays(votes) < THRESHOLD * n
  {
    YaysAndNays(votes);
    PercentAtLeast(Nays(votes), n, 100 - THRESHOLD + 1);
    PercentAtLeast(Yays(votes), n, THRESHOLD);
  }

  lemma NothingDecidedYet(n: nat)
    ensures !Decided(map[], n)
  {
    assert Voters<Notary, Verdict>(map[], Valid) == {} && Against(map[]) == {};
  }

  /** After any run in which all `n` notaries voted on a claim, in any order and among any other events,
      it is still pending if and only if the yays lie strictly between 65% and 66%. */
  lemma StuckExactly(s: Claims, n: nat, es: seq<Event>, id: ClaimId, notaries: set<Notary>)
    requires Inv(s, notaries) && Enabled(notaries, es) && id in s.claims && s.Votes(id) == map[]
    requires 0 < n == |notaries| && Cast(es, id, map[]).Keys == notaries
    ensures id in Run(s, n, es).claims <==> (THRESHOLD - 1) * n < 100 * Yays(Cast(es, id, map[])) < THRESHOLD * n
  {
    NothingDecidedYet(n);
    PendingExactly(s, n, es, id, notaries);
    assert |Cast(es, id, map[]).Keys| == |Cast(es, id, map[])|;
    StuckAfterAllVotes(Cast(es, id, map[]), n);
  }

  lemma {:induction false} NoMoreVotes(es: seq<Event>, id: ClaimId, votes: map<Notary, Verdict>, notaries: set<Notary>)
    requires Enabled(notaries, es) && votes.Keys == notaries
    ensures Cast(es, id, votes) == votes
    decreases |es|
  {
    if es != [] { NoMoreVotes(es[1..], id, votes, notaries); }
  }

  /** A claim pending with the votes of all notaries stays pending through every later run, and its
      transaction is refused as a duplicate for good. */
  lemma StuckForever(s: Claims, n: nat, es: seq<Event>, id: ClaimId, notaries: set<Notary>, c: Claim)
    requires Inv(s, notaries) && Enabled(notaries, es) && id in s.claims
    requires s.Votes(id).Keys == notaries && !Decided(s.Votes(id), n) && c.hash == s.claims[id].0
    ensures id in Run(s, n, es).claims && Run(s, n, es).Votes(id) == s.Votes(id)
    ensures Submit(Run(s, n, es), c) == Err(DuplicateClaim)
  {
    NoMoreVotes(es, id, s.Votes(id), notaries);
    PendingExactly(s, n, es, id, notaries);
    RunKeeps(s, n, es, notaries);
    var t := Run(s, n, es);
    assert t.claims[id].0 in t.pending;
  }

  // ---- From genesis ----

  const CLAIM := Claim((0, 0), 7, [])

  /** The first `y` notaries are in favour. */
  function VerdictOf(i: nat, y: nat): Verdict { if i < y then Valid else NoTxLogs }

  /** Notaries 0 to k - 1. */
  function Below(k: nat): set<Notary> { if k == 0 then {} else Below(k - 1) + {k - 1} }

  function Verdicts(k: nat, y: nat): map<Notary, Verdict> { map i | i in Below(k) :: VerdictOf(i, y) }

  /** They vote on claim 0 in turn. */
  function VotesFrom(lo: nat, hi: nat, y: nat): seq<Event>
    decreases hi - lo
  {
    if lo >= hi then [] else [Vote(0, VerdictOf(lo, y), lo, 0)] + VotesFrom(lo + 1, hi, y)
  }

  lemma {:induction false} BelowIs(k: nat)
    ensures |Below(k)| == k && forall i: nat :: i in Below(k) <==> i < k
  {
    if k > 0 { BelowIs(k - 1); }
  }

  lemma {:induction false} CastFrom(lo: nat, hi: nat, y: nat)
    requires lo <= hi
    ensures Cast(VotesFrom(lo, hi, y), 0, Verdicts(lo, y)) == Verdicts(hi, y)
    ensures Enabled(Below(hi), VotesFrom(lo, hi, y))
    decreases hi - lo
  {
    BelowIs(hi);
    if lo < hi {
      BelowIs(lo);
      assert Verdicts(lo, y)[lo := VerdictOf(lo, y)] == Verdicts(lo + 1, y);
      CastFrom(lo + 1, hi, y);
    }
  }

  lemma YaysOf(n: nat, y: nat)
    requires y <= n
    ensures |Below(n)| == n && Verdicts(n, y).Keys == Below(n) && Yays(Verdicts(n, y)) == y
  {
    BelowIs(n);
    BelowIs(y);
    assert Voters(Verdicts(n, y), Valid) == Below(y);
  }

  function Submitted(deadline: Seconds, n: nat): Claims { Step(Start(deadline), n, SubmitClaim(CLAIM)) }

  lemma SubmittedIs(deadline: Seconds, n: nat)
    ensures
      var s := Submitted(deadline, n);
      Inv(s, Below(n)) && 0 in s.claims && s.claims[0].0 == CLAIM.hash && s.Votes(0) == map[]
  {
    StepKeeps(Start(deadline), n, SubmitClaim(CLAIM), Below(n));
  }

  lemma AllVoted(s: Claims, n: nat, y: nat)
    requires Inv(s, Below(n)) && 0 in s.claims && s.Votes(0) == map[]
    requires y <= n && (THRESHOLD - 1) * n < 100 * y < THRESHOLD * n
    ensures
      var t := Run(s, n, VotesFrom(0, n, y));
      && Inv(t, Below(n)) && 0 in t.claims && t.claims[0] == s.claims[0]
      && t.Votes(0).Keys == Below(n) && !Decided(t.Votes(0), n)
  {
    YaysOf(n, y);
    CastFrom(0, n, y);
    assert Verdicts(0, y) == map[];
    NothingDecidedYet(n);
    PendingExactly(s, n, VotesFrom(0, n, y), 0, Below(n));
    StuckAfterAllVotes(Verdicts(n, y), n);
    RunKeeps(s, n, VotesFrom(0, n, y), Below(n));
  }

  /** From genesis, for every number of validators and of yays in the gap: the claim is pending after
      every vote and after whatever happens later. */
  lemma StuckFromGenesis(deadline: Seconds, n: nat, y: nat, later: seq<Event>)
    requires y <= n && (THRESHOLD - 1) * n < 100 * y < THRESHOLD * n && Enabled(Below(n), later)
    ensures
      var s := Run(Run(Start(deadline), n, [SubmitClaim(CLAIM)] + VotesFrom(0, n, y)), n, later);
      0 in s.claims && Submit(s, CLAIM) == Err(DuplicateClaim)
  {
    var es := VotesFrom(0, n, y);
    RunOne(Start(deadline), n, [SubmitClaim(CLAIM)] + es);
    assert ([SubmitClaim(CLAIM)] + es)[1..] == es;
    SubmittedIs(deadline, n);
    AllVoted(Submitted(deadline, n), n, y);
    StuckForever(Run(Submitted(deadline, n), n, es), n, later, 0, Below(n), CLAIM);
  }

  /** 15 yays of 23 are the smallest such case: no smaller number of validators leaves a gap. */
  lemma SmallestGap(n: nat, y: nat)
    requires (THRESHOLD - 1) * n < 100 * y < THRESHOLD * n
    ensures 23 <= n
  {
  }

  lemma StuckWith23(deadline: Seconds, n: nat, y: nat, later: seq<Event>)
    requires n == 23 && y == 15 && Enabled(Below(n), later)
    ensures
      var s := Run(Run(Start(deadline), n, [SubmitClaim(CLAIM)] + VotesFrom(0, n, y)), n, later);
      0 in s.claims && Submit(s, CLAIM) == Err(DuplicateClaim)
  {
    StuckFromGenesis(deadline, n, y, later);
  }

  lemma RunOne(s: Claims, n: nat, es: seq<Event>)
    requires es != []
    ensures Run(s, n, es) == Run(Step(s, n, es[0]), n, es[1..])
  {
  }

  // ---- A hash verified twice ----

  lemma OneYay(v: map<Notary, Verdict>)
    requires v == map[0 := Valid]
    ensures !Rejected(v, 1) && Approved(v, 1)
  {
    assert Voters(v, Valid) == {0};
    assert Against(v) == {};
    assert Percent(1, 1) == 100;
  }

  lemma EnteredClaim(s: Claims, notaries: set<Notary>)
    requires Inv(s, notaries) && CLAIM.hash !in s.processed && CLAIM.hash !in s.pending
    ensures
      var (u, id) := (Step(s, 1, SubmitClaim(CLAIM)), s.nextId);
      && Inv(u, notaries) && id in u.claims && id in u.data && u.Votes(id) == map[] && u.claims[id].0 == CLAIM.hash
      && Get(u.types, u.claims[id].1, (0, 0)) == CLAIM.kind && u.data[id] == CLAIM.data
      && u.nextId == id + 1 && u.deadline == s.deadline && u.told == s.told
  {
    StepKeeps(s, 1, SubmitClaim(CLAIM), notaries);
    assert s.nextId !in s.claims;
    var u := Step(s, 1, SubmitClaim(CLAIM));
    assert u.submitted[s.nextId] == CLAIM;
  }

  /** With one validator, a claim not seen before is verified by its vote. */
  lemma VerifiedAtOnce(s: Claims, at: nat, notaries: set<Notary>)
    requires Inv(s, notaries) && CLAIM.hash !in s.processed && CLAIM.hash !in s.pending && 0 in notaries
    ensures
      var id := s.nextId;
      var t := Step(Step(s, 1, SubmitClaim(CLAIM)), 1, Vote(id, Valid, 0, at));
      && Inv(t, notaries) && t.nextId == id + 1 && t.deadline == s.deadline
      && t.told == s.told + [Told(id, true, CLAIM.kind, CLAIM.data)]
      && (FiledUnder(at, s.deadline), CLAIM.hash) in t.buckets && CLAIM.hash !in t.pending
  {
    var (u, id) := (Step(s, 1, SubmitClaim(CLAIM)), s.nextId);
    EnteredClaim(s, notaries);
    StepKeeps(u, 1, Vote(id, Valid, 0, at), notaries);
    OneYay(u.Votes(id)[0 := Valid]);
    ApprovedBy(u, id, at);
  }

  lemma ApprovedBy(u: Claims, id: ClaimId, at: nat)
    requires id in u.claims && id in u.data && u.Votes(id) == map[]
    requires !Rejected(map[0 := Valid], 1) && Approved(map[0 := Valid], 1)
    ensures
      var (t, hash) := (Step(u, 1, Vote(id, Valid, 0, at)), u.claims[id].0);
      && t.nextId == u.nextId && t.deadline == u.deadline
      && t.told == u.told + [Told(id, true, Get(u.types, u.claims[id].1, (0, 0)), u.data[id])]
      && (FiledUnder(at, u.deadline), hash) in t.buckets && hash !in t.pending
  {
    assert u.Votes(id)[0 := Valid] == map[0 := Valid];
    assert Step(u, 1, Vote(id, Valid, 0, at)) == Approve(u, id, at);
  }

  /** One validator and two times in the same bucket: the same transaction is claimed, verified, forgotten
      by the prune, claimed again and verified again, and its subscribers are told twice. */
  lemma VerifiedTwice(deadline: Seconds, at: nat, pruned: nat, again: nat)
    requires PrunedBucket(at, deadline) == PrunedBucket(pruned, deadline)
    ensures
      var es := [SubmitClaim(CLAIM), Vote(0, Valid, 0, at), PruneAt(pruned), SubmitClaim(CLAIM),
                 Vote(1, Valid, 0, again)];
      Run(Start(deadline), 1, es).told == [Told(0, true, CLAIM.kind, CLAIM.data), Told(1, true, CLAIM.kind, CLAIM.data)]
  {
    var es := [SubmitClaim(CLAIM), Vote(0, Valid, 0, at), PruneAt(pruned), SubmitClaim(CLAIM),
               Vote(1, Valid, 0, again)];
    FiveSteps(Start(deadline), 1, es);
    VerifiedAtOnce(Start(deadline), at, {0});
    FiledUnderNow(at, deadline);
    var s := Step(Step(Start(deadline), 1, es[0]), 1, es[1]);
    StepKeeps(s, 1, PruneAt(pruned), {0});
    RememberedUnlessPruned(s, 1, PruneAt(pruned), {0}, CLAIM.hash, PrunedBucket(at, deadline));
    VerifiedAtOnce(Step(s, 1, PruneAt(pruned)), again, {0});
  }

  lemma FiveSteps(s: Claims, n: nat, es: seq<Event>)
    requires |es| == 5
    ensures Run(s, n, es) == Step(Step(Step(Step(Step(s, n, es[0]), n, es[1]), n, es[2]), n, es[3]), n, es[4])
  {
    var s1 := Step(s, n, es[0]);
    var s2 := Step(s1, n, es[1]);
    var s3 := Step(s2, n, es[2]);
    RunOne(s, n, es);
    RunOne(s1, n, es[1..]);
    assert es[1..][1..] == es[2..];
    RunOne(s2, n, es[2..]);
    assert es[2..][1..] == es[3..];
    RunOne(s3, n, es[3..]);
    assert es[3..][1..] == es[4..];
    RunOne(Step(s3, n, es[3]), n, es[4..]);
    assert es[4..][1..] == [];
  }
}
