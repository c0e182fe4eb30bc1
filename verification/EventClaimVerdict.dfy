/** What the subscribers of an event claim are told, over any run: success exactly if the votes that closed
    the claim were enough in favour. */
module EventClaimVerdict {
  import opened Prelude
  import opened EthThreshold
  import opened EventClaimSpec
  import opened EventClaimSafety
  import opened EventClaimOutcome

  function For(votes: map<Notary, Verdict>): set<Notary> { set k | k in votes && votes[k] == Valid }

  function NotFor(votes: map<Notary, Verdict>): set<Notary> { set k | k in votes && votes[k] != Valid }

  /** At least 66% of all validators are in favour. */
  predicate Passes(votes: map<Notary, Verdict>, n: nat) { 100 * |For(votes)| >= 66 * n }

  /** At least 35% of all validators, which is the first whole percentage above 34%, are not. */
  predicate Fails(votes: map<Notary, Verdict>, n: nat) { 100 * |NotFor(votes)| >= 35 * n }

  /** The votes on claim `id` when they first decide it. */
  function Deciding(es: seq<Event>, id: ClaimId, votes: map<Notary, Verdict>, n: nat): Option<map<Notary, Verdict>>
    decreases |es|
  {
    if Passes(votes, n) || Fails(votes, n) then Some(votes)
    else if es == [] then None
    else Deciding(es[1..], id, Cast([es[0]], id, votes), n)
  }

  lemma TestsAre(votes: map<Notary, Verdict>, n: nat)
    requires |votes| <= n && 0 < n
    ensures Passes(votes, n) <==> Approved(votes, n)
    ensures Fails(votes, n) <==> Rejected(votes, n)
    ensures !(Passes(votes, n) && Fails(votes, n))
  {
    assert For(votes) == Voters(votes, Valid) && NotFor(votes) == Against(votes);
    YaysAndNays(votes);
    PercentAtLeast(Nays(votes), n, 35);
    PercentAtLeast(Yays(votes), n, 66);
  }

  /** The subscribers of `id` have been told `success`. */
  predicate ToldOf(told: seq<Told>, id: ClaimId, success: bool) {
    exists i :: 0 <= i < |told| && told[i].id == id && told[i].success == success
  }

  lemma ToldLast(told: seq<Told>, t: Told)
    ensures ToldOf(told + [t], t.id, t.success)
  {
    assert (told + [t])[|told|] == t;
  }

  /** A vote that decides a claim tells its subscribers of success, and keeps the hash, exactly if it passes. */
  lemma VoteTells(s: Claims, n: nat, e: Event, notaries: set<Notary>)
    requires Inv(s, notaries) && e.Vote? && e.id in s.claims && e.notary in notaries && Admits(s, e.id, e.notary)
    requires |notaries| <= n && 0 < n
    ensures
      var (t, votes, hash) := (Step(s, n, e), s.Votes(e.id)[e.notary := e.verdict], s.claims[e.id].0);
      && (e.id !in t.claims <==> Passes(votes, n) || Fails(votes, n))
      && (e.id in t.claims ==> t.told == s.told && t.processed == s.processed)
      && (e.id !in t.claims ==>
            && ToldOf(t.told, e.id, Passes(votes, n)) && |t.told| == |s.told| + 1
            && t.processed == if Passes(votes, n) then s.processed + {hash} else s.processed)
      && hash !in s.processed && hash in s.pending && (e.id !in t.claims ==> hash !in t.pending)
  {
    assert e.id in s.data;
    var (t, votes) := (Step(s, n, e), s.Votes(e.id)[e.notary := e.verdict]);
    SubsetSize(votes.Keys, notaries);
    assert |votes.Keys| == |votes|;
    TestsAre(votes, n);
    if Rejected(votes, n) {
      assert t == Close(s, e.id, false);
      ToldLast(s.told, t.told[|s.told|]);
    } else if Approved(votes, n) {
      assert t == Approve(s, e.id, e.now);
      ToldLast(s.told, t.told[|s.told|]);
    } else {
      assert t == s.(votes := s.votes[e.id := votes]);
    }
  }

  lemma ToldStays(s: Claims, n: nat, e: Event, id: ClaimId, success: bool)
    requires ToldOf(s.told, id, success)
    ensures ToldOf(Step(s, n, e).told, id, success)
  {
    var i :| 0 <= i < |s.told| && s.told[i].id == id && s.told[i].success == success;
    ToldGrows(s, n, e);
    assert Step(s, n, e).told[i] == s.told[i];
  }

  lemma ToldGrows(s: Claims, n: nat, e: Event)
    ensures s.told <= Step(s, n, e).told
  {
    match e
    case Vote(id, v, notary, now) =>
      var votes := s.Votes(id)[notary := v];
      if id in s.claims && id in s.data && Admits(s, id, notary) {
        if Rejected(votes, n) {
        } else if Approved(votes, n) {
        } else {
        }
      }
    case _ =>
  }

  lemma {:induction false} ToldForGood(s: Claims, n: nat, es: seq<Event>, id: ClaimId, success: bool)
    requires ToldOf(s.told, id, success)
    ensures ToldOf(Run(s, n, es).told, id, success)
    decreases |es|
  {
    if es != [] {
      ToldStays(s, n, es[0], id, success);
      ToldForGood(Step(s, n, es[0]), n, es[1..], id, success);
    }
  }

  /** The votes on a pending claim fit the number of validators. */
  lemma FewVotes(s: Claims, id: ClaimId, notaries: set<Notary>)
    requires Inv(s, notaries)
    ensures |s.Votes(id)| <= |notaries|
  {
    SubsetSize(s.Votes(id).Keys, notaries);
    assert |s.Votes(id).Keys| == |s.Votes(id)|;
  }

  /** What a run ends in for claim `id` if `v` are the votes that decided it. */
  ghost predicate Answered(t: Claims, id: ClaimId, v: Option<map<Notary, Verdict>>, n: nat) {
    && (id in t.claims <==> v.None?)
    && (v.Some? ==> ToldOf(t.told, id, Passes(v.value, n)) && (Passes(v.value, n) <==> !Fails(v.value, n)))
  }

  lemma ClosedByVote(s: Claims, n: nat, es: seq<Event>, id: ClaimId, notaries: set<Notary>)
    requires Inv(s, notaries) && es != [] && es[0].Vote? && es[0].id == id && es[0].notary in notaries
    requires |notaries| <= n && 0 < n && id in s.claims && Admits(s, id, es[0].notary)
    requires id !in Step(s, n, es[0]).claims
    ensures Answered(Run(s, n, es), id, Some(s.Votes(id)[es[0].notary := es[0].verdict]), n)
  {
    var (now, votes) := (Step(s, n, es[0]), s.Votes(id)[es[0].notary := es[0].verdict]);
    ClosingVote(s, n, es[0], notaries);
    StaysClosed(now, n, es[1..], id);
    ToldForGood(now, n, es[1..], id, Passes(votes, n));
    RunOne(s, n, es);
  }

  lemma ClosingVote(s: Claims, n: nat, e: Event, notaries: set<Notary>)
    requires Inv(s, notaries) && e.Vote? && e.id in s.claims && e.notary in notaries && Admits(s, e.id, e.notary)
    requires |notaries| <= n && 0 < n && e.id !in Step(s, n, e).claims
    ensures
      var (now, votes) := (Step(s, n, e), s.Votes(e.id)[e.notary := e.verdict]);
      && e.id < now.nextId && ToldOf(now.told, e.id, Passes(votes, n))
      && (Passes(votes, n) <==> !Fails(votes, n))
  {
    var votes := s.Votes(e.id)[e.notary := e.verdict];
    VoteTells(s, n, e, notaries);
    NextIdGrows(s, n, e);
    SubsetSize(votes.Keys, notaries);
    assert |votes.Keys| == |votes|;
    TestsAre(votes, n);
  }

  /** Nobody is told both ways. */
  lemma ToldOneWay(s: Claims, notaries: set<Notary>, id: ClaimId, success: bool)
    requires Inv(s, notaries) && ToldOf(s.told, id, success)
    ensures !ToldOf(s.told, id, !success)
  {
  }

  /** Over any run, for a pending claim that is not decided yet: it is closed if and only if the votes cast on it,
      the first of each notary, come to decide it, and then its subscribers are told of success if and only if at
      least 66% of the validators were in favour, and of failure if and only if at least 35% were not. */
  lemma {:induction false} ToldByVotes(s: Claims, n: nat, es: seq<Event>, id: ClaimId, notaries: set<Notary>)
    requires Inv(s, notaries) && Enabled(notaries, es) && id in s.claims && |notaries| <= n && 0 < n
    requires !Passes(s.Votes(id), n) && !Fails(s.Votes(id), n)
    ensures Answered(Run(s, n, es), id, Deciding(es, id, s.Votes(id), n), n)
    decreases |es|
  {
    if es != [] {
      var (e, rest, now) := (es[0], es[1..], Step(s, n, es[0]));
      var votes := Cast([e], id, s.Votes(id));
      EnabledRest(notaries, es);
      StepKeeps(s, n, e, notaries);
      PendingStep(s, n, e, id, notaries);
      CastOne(e, id, s.Votes(id));
      RunOne(s, n, es);
      if e.Vote? && e.id == id && e.notary !in s.Votes(id) { VoteTells(s, n, e, notaries); }
      if id in now.claims {
        ToldByVotes(now, n, rest, id, notaries);
      } else {
        ClosedByVote(s, n, es, id, notaries);
        assert Deciding(rest, id, votes, n) == Some(votes);
      }
    }
  }

  /** From the start: a claim accepted after any events `before` is answered by the votes among the events after. */
  lemma ToldFromStart(deadline: Seconds, n: nat, before: seq<Event>, c: Claim, after: seq<Event>, notaries: set<Notary>)
    requires Enabled(notaries, before) && Enabled(notaries, after) && |notaries| <= n && 0 < n
    requires Submit(Run(Start(deadline), n, before), c).Ok?
    ensures
      var s := Run(Start(deadline), n, before);
      var (id, t, v) := (s.nextId, Run(Step(s, n, SubmitClaim(c)), n, after), Deciding(after, s.nextId, map[], n));
      Answered(t, id, v, n) && (v.Some? ==> !ToldOf(t.told, id, Fails(v.value, n)))
  {
    var s := Run(Start(deadline), n, before);
    RunKeeps(Start(deadline), n, before, notaries);
    var t := Step(s, n, SubmitClaim(c));
    StepKeeps(s, n, SubmitClaim(c), notaries);
    assert s.nextId !in s.claims && t.Votes(s.nextId) == map[];
    assert For(map[]) == {} && NotFor(map[]) == {};
    ToldByVotes(t, n, after, s.nextId, notaries);
    RunKeeps(t, n, after, notaries);
    var v := Deciding(after, s.nextId, map[], n);
    if v.Some? { ToldOneWay(Run(t, n, after), notaries, s.nextId, Passes(v.value, n)); }
  }
}
