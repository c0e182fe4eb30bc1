/** The check on incoming notarizations. It looks for an earlier vote among the event votes only, by
    number and notary, whether the vote is on an event claim or on an eth_call. */
module VoteGuard {
  import opened Prelude
  import opened EthThreshold
  import C = EthCallSpec
  import CS = EthCallSafety
  import E = EventClaimSpec
  import ES = EventClaimSafety
  import EO = EventClaimOutcome

  type Notary = nat

  datatype Bridge = Bridge(calls: C.Calls, claims: E.Claims)

  /** A notarization, numbered by its call or its claim. */
  datatype Payload =
    | CallVote(id: nat, result: C.CallResult, outcome: C.Outcome)
    | EventVote(id: nat, verdict: E.Verdict, now: nat)

  /** `validate_unsigned`, for a correctly signed payload of an active notary. */
  predicate Admitted(b: Bridge, notary: Notary, p: Payload) { E.Admits(b.claims, p.id, notary) }

  datatype Op =
    | AskCall(request: C.Request)
    | SubmitClaim(claim: E.Claim)
    | PruneAt(now: nat)
    | SetDeadline(deadline: E.Seconds)
    | Submit(notary: Notary, payload: Payload)

  function CallEvent(notary: Notary, p: Payload): C.Event
    requires p.CallVote?
  {
    C.Vote(p.id, notary, p.result, p.outcome)
  }

  function Step(b: Bridge, n: nat, op: Op): Bridge {
    match op
    case AskCall(request) => b.(calls := C.AskFor(b.calls, request))
    case SubmitClaim(c) => b.(claims := E.Step(b.claims, n, E.SubmitClaim(c)))
    case PruneAt(now) => b.(claims := E.Prune(b.claims, now))
    case SetDeadline(d) => b.(claims := E.Step(b.claims, n, E.SetDeadline(d)))
    case Submit(notary, p) =>
      if !Admitted(b, notary, p) then b
      else if p.CallVote? then b.(calls := C.Step(b.calls, CallEvent(notary, p)))
      else b.(claims := E.Step(b.claims, n, E.Vote(p.id, p.verdict, notary, p.now)))
  }

  /** Votes come from notaries, and call votes have an outcome their tally allows. */
  ghost predicate Enabled(b: Bridge, n: nat, notaries: set<Notary>, op: Op) {
    op.Submit? ==>
      op.notary in notaries && (op.payload.CallVote? ==> C.Enabled(b.calls, n, CallEvent(op.notary, op.payload)))
  }

  ghost predicate EnabledRun(b: Bridge, n: nat, notaries: set<Notary>, ops: seq<Op>)
    decreases |ops|
  {
    ops == [] || (Enabled(b, n, notaries, ops[0]) && EnabledRun(Step(b, n, ops[0]), n, notaries, ops[1..]))
  }

  function Run(b: Bridge, n: nat, ops: seq<Op>): Bridge
    decreases |ops|
  {
    if ops == [] then b else Run(Step(b, n, ops[0]), n, ops[1..])
  }

  function Start(deadline: E.Seconds): Bridge { Bridge(C.START, E.Start(deadline)) }

  ghost predicate Inv(b: Bridge, n: nat, notaries: set<Notary>) { CS.Inv(b.calls, n) && ES.Inv(b.claims, notaries) }

  lemma StepKeeps(b: Bridge, n: nat, notaries: set<Notary>, op: Op)
    requires Inv(b, n, notaries) && Enabled(b, n, notaries, op)
    ensures Inv(Step(b, n, op), n, notaries)
  {
    match op
    case AskCall(request) => CS.AskKeeps(b.calls, n, request);
    case SubmitClaim(c) => ES.StepKeeps(b.claims, n, E.SubmitClaim(c), notaries);
    case PruneAt(now) => ES.StepKeeps(b.claims, n, E.PruneAt(now), notaries);
    case SetDeadline(d) => ES.StepKeeps(b.claims, n, E.SetDeadline(d), notaries);
    case Submit(notary, p) =>
      if p.CallVote? {
        CS.StepKeeps(b.calls, n, CallEvent(notary, p));
      } else {
        ES.StepKeeps(b.claims, n, E.Vote(p.id, p.verdict, notary, p.now), notaries);
      }
  }

  /** Calls and claims keep their invariants in any run of both. */
  lemma {:induction false} RunKeeps(b: Bridge, n: nat, notaries: set<Notary>, ops: seq<Op>)
    requires Inv(b, n, notaries) && EnabledRun(b, n, notaries, ops)
    ensures Inv(Run(b, n, ops), n, notaries)
    decreases |ops|
  {
    if ops != [] {
      StepKeeps(b, n, notaries, ops[0]);
      RunKeeps(Step(b, n, ops[0]), n, notaries, ops[1..]);
    }
  }

  /** A call vote is refused exactly when its notary has voted on a pending event claim with the number of
      the call; earlier votes on the call itself make no difference. */
  lemma CallVoteRefused(b: Bridge, n: nat, notaries: set<Notary>, notary: Notary, p: Payload)
    requires Inv(b, n, notaries) && p.CallVote? && p.id in b.calls.info
    ensures
      var t := Step(b, n, Submit(notary, p));
      && (t.calls.Ballots(p.id) == b.calls.Ballots(p.id) <==> p.id in b.claims.claims && notary in b.claims.Votes(p.id))
      && (t.calls.Ballots(p.id) != b.calls.Ballots(p.id) ==>
            t.calls.Ballots(p.id) == b.calls.Ballots(p.id) + [C.Ballot(notary, p.result)])
  {
    if Admitted(b, notary, p) {
      CS.VoteBallots(b.calls, CallEvent(notary, p));
    } else {
      assert p.id in b.claims.claims;
    }
  }

  /** A second vote on a pending event claim changes nothing. */
  lemma EventVoteOnce(b: Bridge, n: nat, notaries: set<Notary>, notary: Notary, p: Payload)
    requires Inv(b, n, notaries) && p.EventVote? && p.id in b.claims.claims && notary in b.claims.Votes(p.id)
    ensures Step(b, n, Submit(notary, p)) == b
  {
  }

  // ---- A stuck claim blocks the call of the same number ----

  /** All notaries have voted on claim `id`, and it is still pending. */
  ghost predicate Stuck(s: E.Claims, n: nat, notaries: set<Notary>, id: nat) {
    id in s.claims && s.Votes(id).Keys == notaries && !EO.Decided(s.Votes(id), n)
  }

  lemma StuckStep(s: E.Claims, n: nat, notaries: set<Notary>, id: nat, e: E.Event)
    requires ES.Inv(s, notaries) && Stuck(s, n, notaries, id) && (e.Vote? ==> e.notary in notaries)
    ensures Stuck(E.Step(s, n, e), n, notaries, id)
  {
    EO.PendingStep(s, n, e, id, notaries);
    EO.NoMoreVotes([e], id, s.Votes(id), notaries);
  }

  lemma CallElsewhere(s: C.Calls, e: C.Event, id: nat)
    requires (e.Ask? && id != s.nextId) || (e.Vote? && e.id != id)
    ensures C.Step(s, e).Ballots(id) == s.Ballots(id) && (id in C.Step(s, e).info <==> id in s.info)
  {
    if e.Vote? && e.id in s.info { CS.OthersUntouched(s, e, id); }
  }

  lemma BlockedStep(b: Bridge, n: nat, notaries: set<Notary>, op: Op, id: nat)
    requires Inv(b, n, notaries) && Enabled(b, n, notaries, op) && Stuck(b.claims, n, notaries, id)
      && id in b.calls.info
    ensures
      var t := Step(b, n, op);
      Stuck(t.claims, n, notaries, id) && id in t.calls.info && t.calls.Ballots(id) == b.calls.Ballots(id)
  {
    match op
    case AskCall(request) => CallElsewhere(b.calls, C.Ask(request), id);
    case SubmitClaim(c) => StuckStep(b.claims, n, notaries, id, E.SubmitClaim(c));
    case PruneAt(now) => StuckStep(b.claims, n, notaries, id, E.PruneAt(now));
    case SetDeadline(d) => StuckStep(b.claims, n, notaries, id, E.SetDeadline(d));
    case Submit(notary, p) => BlockedVote(b, n, notaries, notary, p, id);
  }

  lemma BlockedVote(b: Bridge, n: nat, notaries: set<Notary>, notary: Notary, p: Payload, id: nat)
    requires Inv(b, n, notaries) && notary in notaries && Stuck(b.claims, n, notaries, id) && id in b.calls.info
    ensures
      var t := Step(b, n, Submit(notary, p));
      Stuck(t.claims, n, notaries, id) && id in t.calls.info && t.calls.Ballots(id) == b.calls.Ballots(id)
  {
    var t := Step(b, n, Submit(notary, p));
    if !Admitted(b, notary, p) {
      assert t == b;
    } else if p.CallVote? {
      assert t == b.(calls := C.Step(b.calls, CallEvent(notary, p)));
      CallElsewhere(b.calls, CallEvent(notary, p), id);
    } else {
      assert t == b.(claims := E.Step(b.claims, n, E.Vote(p.id, p.verdict, notary, p.now)));
      StuckStep(b.claims, n, notaries, id, E.Vote(p.id, p.verdict, notary, p.now));
    }
  }

  /** While a claim is stuck, the call with its number gets no vote at all and is never answered, through
      every later run. */
  lemma {:induction false} StuckClaimBlocksCall(b: Bridge, n: nat, notaries: set<Notary>, ops: seq<Op>, id: nat)
    requires Inv(b, n, notaries) && EnabledRun(b, n, notaries, ops)
    requires Stuck(b.claims, n, notaries, id) && id in b.calls.info
    ensures
      var t := Run(b, n, ops);
      id in t.calls.info && t.calls.Ballots(id) == b.calls.Ballots(id)
    decreases |ops|
  {
    if ops != [] {
      StepKeeps(b, n, notaries, ops[0]);
      BlockedStep(b, n, notaries, ops[0], id);
      StuckClaimBlocksCall(Step(b, n, ops[0]), n, notaries, ops[1..], id);
    }
  }

  // ---- Runs from genesis ----

  /** Notaries `lo` to `hi` - 1 vote on claim 0 in turn, the first `y` in favour. */
  function VotesOn(lo: nat, hi: nat, y: nat): seq<Op>
    decreases hi - lo
  {
    if lo >= hi then [] else [Submit(lo, EventVote(0, EO.VerdictOf(lo, y), 0))] + VotesOn(lo + 1, hi, y)
  }

  lemma {:induction false} VotesReachClaims(b: Bridge, n: nat, lo: nat, y: nat)
    requires lo <= n
    ensures EnabledRun(b, n, EO.Below(n), VotesOn(lo, n, y))
    ensures Run(b, n, VotesOn(lo, n, y)) == b.(claims := E.Run(b.claims, n, EO.VotesFrom(lo, n, y)))
    decreases n - lo
  {
    if lo < n {
      var (ops, es) := (VotesOn(lo, n, y), EO.VotesFrom(lo, n, y));
      EO.BelowIs(n);
      assert ops[1..] == VotesOn(lo + 1, n, y) && es[1..] == EO.VotesFrom(lo + 1, n, y);
      assert Step(b, n, ops[0]) == b.(claims := E.Step(b.claims, n, es[0]));
      VotesReachClaims(Step(b, n, ops[0]), n, lo + 1, y);
    }
  }

  /** A call, a claim and all votes on the claim: the call gets no vote, whatever happens later. */
  lemma BlockedFromGenesis(deadline: E.Seconds, n: nat, y: nat, later: seq<Op>)
    requires y <= n && (THRESHOLD - 1) * n < 100 * y < THRESHOLD * n
    requires
      var b := Step(Step(Start(deadline), n, AskCall(CS.REQUEST)), n, SubmitClaim(EO.CLAIM));
      EnabledRun(Run(b, n, VotesOn(0, n, y)), n, EO.Below(n), later)
    ensures
      var b := Step(Step(Start(deadline), n, AskCall(CS.REQUEST)), n, SubmitClaim(EO.CLAIM));
      var t := Run(b, n, VotesOn(0, n, y));
      && EnabledRun(b, n, EO.Below(n), VotesOn(0, n, y)) && Stuck(t.claims, n, EO.Below(n), 0)
      && 0 in Run(t, n, later).calls.info && Run(t, n, later).calls.Ballots(0) == []
  {
    var b := Step(Step(Start(deadline), n, AskCall(CS.REQUEST)), n, SubmitClaim(EO.CLAIM));
    StepKeeps(Start(deadline), n, EO.Below(n), AskCall(CS.REQUEST));
    StepKeeps(Step(Start(deadline), n, AskCall(CS.REQUEST)), n, EO.Below(n), SubmitClaim(EO.CLAIM));
    EO.SubmittedIs(deadline, n);
    assert b.claims == EO.Submitted(deadline, n);
    VotesReachClaims(b, n, 0, y);
    EO.AllVoted(b.claims, n, y);
    StuckClaimBlocksCall(Run(b, n, VotesOn(0, n, y)), n, EO.Below(n), later, 0);
  }

  const VOTE := CallVote(0, CS.ANSWER, C.Undecided)
  const YAY := EventVote(0, E.Valid, 0)

  /** Notary 0 votes on claim 0 of three validators, so its first vote on call 0 is refused. */
  lemma FirstCallVoteRefused(deadline: E.Seconds)
    ensures
      var ops := [SubmitClaim(EO.CLAIM), Submit(0, YAY), AskCall(CS.REQUEST)];
      var b := Run(Start(deadline), 3, ops);
      && EnabledRun(Start(deadline), 3, {0}, ops)
      && 0 in b.calls.info && b.calls.Ballots(0) == [] && !Admitted(b, 0, VOTE) && Step(b, 3, Submit(0, VOTE)) == b
  {
    var ops := [SubmitClaim(EO.CLAIM), Submit(0, YAY), AskCall(CS.REQUEST)];
    var b1 := Step(Start(deadline), 3, ops[0]);
    var v := map[0 := E.Valid];
    assert Voters(v, E.Valid) == {0} && E.Against(v) == {};
    assert Percent(1, 3) == 33 && Percent(0, 3) == 0;
    assert b1.claims.Votes(0)[0 := E.Valid] == v && !E.Rejected(v, 3) && !E.Approved(v, 3);
    var b2 := Step(b1, 3, ops[1]);
    assert b2.claims.Votes(0) == v;
    var b3 := Step(b2, 3, ops[2]);
    ThreeSteps(Start(deadline), 3, ops);
    ThreeEnabled(Start(deadline), 3, {0}, ops);
  }

  /** Nobody has voted on an event: notary 0 votes twice on call 0 of three validators, both votes are
      admitted, and its answer is delivered. */
  lemma SecondCallVoteAdmitted(deadline: E.Seconds)
    ensures
      var ops := [AskCall(CS.REQUEST), Submit(0, VOTE), Submit(0, CallVote(0, CS.ANSWER, C.Consensus(CS.ANSWER)))];
      && EnabledRun(Start(deadline), 3, {0}, ops)
      && Run(Start(deadline), 3, ops).calls.callbacks == [C.Complete(0, 1, 1, 1)]
  {
    var again := CallVote(0, CS.ANSWER, C.Consensus(CS.ANSWER));
    var ops := [AskCall(CS.REQUEST), Submit(0, VOTE), Submit(0, again)];
    CS.OneAndTwo();
    assert Bump(CS.ASKED.Tally(0), CS.ANSWER) == map[CS.ANSWER := 1]
      && Bump(CS.ONCE.Tally(0), CS.ANSWER) == map[CS.ANSWER := 2];
    var b0 := Start(deadline);
    var b1 := Step(b0, 3, ops[0]);
    assert b1.calls == CS.ASKED;
    var b2 := Step(b1, 3, ops[1]);
    assert b2.calls == CS.ONCE;
    ThreeSteps(b0, 3, ops);
    ThreeEnabled(b0, 3, {0}, ops);
  }

  lemma ThreeEnabled(b: Bridge, n: nat, notaries: set<Notary>, ops: seq<Op>)
    requires |ops| == 3 && Enabled(b, n, notaries, ops[0]) && Enabled(Step(b, n, ops[0]), n, notaries, ops[1])
    requires Enabled(Step(Step(b, n, ops[0]), n, ops[1]), n, notaries, ops[2])
    ensures EnabledRun(b, n, notaries, ops)
  {
    var b1 := Step(b, n, ops[0]);
    var b2 := Step(b1, n, ops[1]);
    assert ops[1..][0] == ops[1] && ops[1..][1..] == ops[2..] && ops[2..][1..] == [];
    assert EnabledRun(Step(b2, n, ops[2]), n, notaries, []);
    assert EnabledRun(b2, n, notaries, ops[2..]);
    assert EnabledRun(b1, n, notaries, ops[1..]);
  }

  lemma ThreeSteps(b: Bridge, n: nat, ops: seq<Op>)
    requires |ops| == 3
    ensures Run(b, n, ops) == Step(Step(Step(b, n, ops[0]), n, ops[1]), n, ops[2])
  {
    assert ops[1..][0] == ops[1] && ops[1..][1..] == ops[2..] && ops[2..][1..] == [];
    var b2 := Step(Step(b, n, ops[0]), n, ops[1]);
    assert Run(b2, n, ops[2..]) == Step(b2, n, ops[2]);
  }
}
