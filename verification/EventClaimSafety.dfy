/** The maps behind event claims stay in step, each claim is answered at most once, and a verified
    hash is refused until its bucket is pruned. */
module EventClaimSafety {
  import opened Prelude
  import opened Arithmetic
  import opened EthThreshold
  import opened EventClaimSpec

  // ---- The two tests ----

  /** Every vote is a yay or a nay. */
  lemma YaysAndNays(votes: map<Notary, Verdict>)
    ensures Yays(votes) + Nays(votes) == |votes|
  {
    var (yes, no) := (Voters(votes, Valid), Against(votes));
    assert yes !! no;
    assert |yes + no| == |yes| + |no|;
    assert yes + no == votes.Keys by { forall k ensures k in yes + no <==> k in votes.Keys {} }
    assert |votes.Keys| == |votes|;
  }

  /** With at most one vote per validator, a claim is never both rejected and approved. */
  lemma NeverBoth(votes: map<Notary, Verdict>, n: nat)
    requires |votes| <= n
    ensures !(Rejected(votes, n) && Approved(votes, n))
  {
    YaysAndNays(votes);
    if 0 < n {
      PercentAtLeast(Nays(votes), n, 100 - THRESHOLD + 1);
      PercentAtLeast(Yays(votes), n, THRESHOLD);
    }
  }

  // ---- Invariant ----

  /** Claims, event data and pending hashes are in one-to-one step. */
  ghost predicate InStep(claims: map<ClaimId, (Hash, TypeId)>, data: map<ClaimId, seq<nat>>,
                         pending: map<Hash, ClaimId>, votes: map<ClaimId, map<Notary, Verdict>>) {
    && claims.Keys == data.Keys
    && (forall id :: id in claims ==> claims[id].0 in pending && pending[claims[id].0] == id)
    && (forall h :: h in pending ==> pending[h] in claims && claims[pending[h]].0 == h)
    && (forall id :: id in votes ==> id in claims)
  }

  /** Buckets partition the processed hashes, and none of those is pending. */
  ghost predicate Filed(pending: map<Hash, ClaimId>, processed: set<Hash>, buckets: set<(nat, Hash)>) {
    && (forall h :: h in pending ==> h !in processed)
    && (forall h :: h in processed ==> exists b: nat :: (b, h) in buckets)
    && (forall b: nat, h: nat :: (b, h) in buckets ==> h in processed)
    && (forall b: nat, c: nat, h: nat :: (b, h) in buckets && (c, h) in buckets ==> b == c)
  }

  /** Event types and their ids are inverse to each other. */
  ghost predicate TypesOk(typeIds: map<EventType, TypeId>, types: map<TypeId, EventType>, nextType: TypeId) {
    && (forall k :: k in typeIds ==> typeIds[k] in types && types[typeIds[k]] == k)
    && (forall t :: t in types ==> t < nextType)
  }

  /** What is stored about an active claim is what was submitted. */
  ghost predicate Faithful(claims: map<ClaimId, (Hash, TypeId)>, data: map<ClaimId, seq<nat>>,
                           types: map<TypeId, EventType>, submitted: map<ClaimId, Claim>) {
    forall id :: id in claims ==>
      && id in submitted && claims[id].0 == submitted[id].hash && claims[id].1 in types
        && types[claims[id].1] == submitted[id].kind
      && (id in data ==> data[id] == submitted[id].data)
  }

  predicate Closed(told: seq<Told>, id: ClaimId) { exists i :: 0 <= i < |told| && told[i].id == id }

  /** Each claim ever submitted is active or closed, subscribers heard of it at most once, and they
      heard what was submitted. */
  ghost predicate OneCallback(nextId: ClaimId, claims: map<ClaimId, (Hash, TypeId)>, told: seq<Told>,
                              submitted: map<ClaimId, Claim>) {
    && (forall id: nat :: id in submitted <==> id < nextId)
    && (forall id: nat :: id < nextId ==> (id in claims) != Closed(told, id))
    && (forall id :: id in claims ==> id < nextId)
    && (forall i, j :: 0 <= i < j < |told| ==> told[i].id != told[j].id)
    && (forall i :: 0 <= i < |told| ==>
          told[i].id in submitted && told[i].kind == submitted[told[i].id].kind
              && told[i].data == submitted[told[i].id].data)
  }

  ghost predicate VotesOk(votes: map<ClaimId, map<Notary, Verdict>>, notaries: set<Notary>) {
    forall id :: id in votes ==> votes[id].Keys <= notaries
  }

  ghost predicate Inv(s: Claims, notaries: set<Notary>) {
    && InStep(s.claims, s.data, s.pending, s.votes)
    && Filed(s.pending, s.processed, s.buckets)
    && TypesOk(s.typeIds, s.types, s.nextType)
    && Faithful(s.claims, s.data, s.types, s.submitted)
    && OneCallback(s.nextId, s.claims, s.told, s.submitted)
    && VotesOk(s.votes, notaries)
  }

  // ---- Steps ----

  lemma SubmitInStep(s: Claims, c: Claim)
    requires InStep(s.claims, s.data, s.pending, s.votes) && s.nextId !in s.claims && Submit(s, c).Ok?
    ensures var t := Submit(s, c).value; InStep(t.claims, t.data, t.pending, t.votes)
  {
  }

  lemma SubmitTypes(s: Claims, c: Claim)
    requires TypesOk(s.typeIds, s.types, s.nextType) && Submit(s, c).Ok?
    ensures
      var t := Submit(s, c).value;
      && TypesOk(t.typeIds, t.types, t.nextType)
      && t.claims[s.nextId].1 in t.types && t.types[t.claims[s.nextId].1] == c.kind
      && (forall k :: k in s.types ==> k in t.types && t.types[k] == s.types[k])
  {
  }

  lemma SubmitOneCallback(s: Claims, c: Claim)
    requires OneCallback(s.nextId, s.claims, s.told, s.submitted) && Submit(s, c).Ok?
    ensures var t := Submit(s, c).value; OneCallback(t.nextId, t.claims, t.told, t.submitted)
  {
    assert s.nextId !in s.submitted;
    assert !Closed(s.told, s.nextId);
  }

  lemma SubmitFaithful(s: Claims, c: Claim)
    requires Faithful(s.claims, s.data, s.types, s.submitted) && TypesOk(s.typeIds, s.types, s.nextType)
      && Submit(s, c).Ok?
    ensures var t := Submit(s, c).value; Faithful(t.claims, t.data, t.types, t.submitted)
  {
    SubmitTypes(s, c);
  }

  lemma SubmitKeeps(s: Claims, c: Claim, notaries: set<Notary>)
    requires Inv(s, notaries) && Submit(s, c).Ok?
    ensures Inv(Submit(s, c).value, notaries)
  {
    var t := Submit(s, c).value;
    assert s.nextId !in s.claims;
    SubmitInStep(s, c);
    SubmitTypes(s, c);
    SubmitOneCallback(s, c);
    SubmitFaithful(s, c);
    assert Filed(t.pending, t.processed, t.buckets);
  }

  lemma CloseInStep(s: Claims, id: ClaimId, success: bool)
    requires InStep(s.claims, s.data, s.pending, s.votes) && id in s.claims
    ensures var t := Close(s, id, success); InStep(t.claims, t.data, t.pending, t.votes)
  {
  }

  lemma ClosedAfter(told: seq<Told>, t: Told)
    ensures forall x: nat :: Closed(told + [t], x) <==> Closed(told, x) || x == t.id
  {
    assert (told + [t])[|told|] == t;
    forall x: nat ensures Closed(told + [t], x) <==> Closed(told, x) || x == t.id {
      if Closed(told, x) {
        var i :| 0 <= i < |told| && told[i].id == x;
        assert (told + [t])[i].id == x;
      }
    }
  }

  lemma CloseOneCallback(s: Claims, id: ClaimId, success: bool)
    requires OneCallback(s.nextId, s.claims, s.told, s.submitted) && Faithful(s.claims, s.data, s.types, s.submitted)
    requires id in s.claims && id in s.data
    ensures var t := Close(s, id, success); OneCallback(t.nextId, t.claims, t.told, t.submitted)
  {
    ClosedAfter(s.told, Close(s, id, success).told[|s.told|]);
    forall i | 0 <= i < |s.told| ensures s.told[i].id != id {
      assert s.told[i].id == id ==> Closed(s.told, id);
    }
  }

  lemma CloseKeeps(s: Claims, id: ClaimId, success: bool, notaries: set<Notary>)
    requires Inv(s, notaries) && id in s.claims
    ensures id in s.data && Inv(Close(s, id, success), notaries) && s.claims[id].0 !in Close(s, id, success).pending
  {
    CloseInStep(s, id, success);
    CloseOneCallback(s, id, success);
    var t := Close(s, id, success);
    assert Filed(t.pending, t.processed, t.buckets);
    assert Faithful(t.claims, t.data, t.types, t.submitted);
  }

  lemma NoteFiled(s: Claims, hash: Hash, bucket: nat)
    requires Filed(s.pending, s.processed, s.buckets) && hash !in s.pending && hash !in s.processed
    ensures var t := Note(s, hash, bucket); Filed(t.pending, t.processed, t.buckets)
  {
    var t := Note(s, hash, bucket);
    assert (bucket, hash) in t.buckets;
    forall h | h in t.processed ensures exists b: nat :: (b, h) in t.buckets {
      if h in s.processed {
        var b: nat :| (b, h) in s.buckets;
        assert (b, h) in t.buckets;
      }
    }
  }

  lemma ApproveKeeps(s: Claims, id: ClaimId, now: nat, notaries: set<Notary>)
    requires Inv(s, notaries) && id in s.claims
    ensures id in s.data && Inv(Approve(s, id, now), notaries)
  {
    CloseKeeps(s, id, true, notaries);
    NoteFiled(Close(s, id, true), s.claims[id].0, FiledUnder(now, s.deadline));
  }

  lemma RecordKeeps(s: Claims, id: ClaimId, verdict: Verdict, notary: Notary, notaries: set<Notary>)
    requires Inv(s, notaries) && id in s.claims && notary in notaries
    ensures Inv(s.(votes := s.votes[id := s.Votes(id)[notary := verdict]]), notaries)
  {
    var votes := s.votes[id := s.Votes(id)[notary := verdict]];
    assert InStep(s.claims, s.data, s.pending, votes);
    assert VotesOk(votes, notaries);
  }

  /** Both "unexpected empty claim" branches are unreachable: a vote on an active claim succeeds. */
  lemma VoteKeeps(s: Claims, id: ClaimId, verdict: Verdict, notary: Notary, n: nat, now: nat, notaries: set<Notary>)
    requires Inv(s, notaries) && notary in notaries
    ensures var r := Notarize(s, id, verdict, notary, n, now);
      (r.Ok? <==> id in s.claims) && (r.Ok? ==> Inv(r.value, notaries))
  {
    if id in s.claims {
      var votes := s.Votes(id)[notary := verdict];
      if Rejected(votes, n) {
        CloseKeeps(s, id, false, notaries);
      } else if Approved(votes, n) {
        ApproveKeeps(s, id, now, notaries);
      } else {
        RecordKeeps(s, id, verdict, notary, notaries);
      }
    }
  }

  lemma PruneFiled(s: Claims, now: nat)
    requires Filed(s.pending, s.processed, s.buckets)
    ensures var t := Prune(s, now); Filed(t.pending, t.processed, t.buckets)
  {
    var t := Prune(s, now);
    forall h | h in t.processed ensures exists b: nat :: (b, h) in t.buckets {
      var b: nat :| (b, h) in s.buckets;
      assert (b, h) in t.buckets;
    }
  }

  lemma StepKeeps(s: Claims, n: nat, e: Event, notaries: set<Notary>)
    requires Inv(s, notaries) && (e.Vote? ==> e.notary in notaries)
    ensures Inv(Step(s, n, e), notaries)
  {
    match e
    case SubmitClaim(c) => if Submit(s, c).Ok? { SubmitKeeps(s, c, notaries); }
    case Vote(id, v, notary, now) => VoteKeeps(s, id, v, notary, n, now, notaries);
    case PruneAt(now) => PruneFiled(s, now);
    case SetDeadline(_) =>
  }

  lemma {:induction false} RunKeeps(s: Claims, n: nat, es: seq<Event>, notaries: set<Notary>)
    requires Inv(s, notaries) && Enabled(notaries, es)
    ensures Inv(Run(s, n, es), notaries)
    decreases |es|
  {
    if es != [] {
      StepKeeps(s, n, es[0], notaries);
      RunKeeps(Step(s, n, es[0]), n, es[1..], notaries);
    }
  }

  /** Over any run: every claim id is active or closed, its subscribers are called at most once, with
      exactly what was submitted, and the storage maps stay in one-to-one step. */
  lemma ClaimsAnsweredAtMostOnce(deadline: Seconds, n: nat, es: seq<Event>, notaries: set<Notary>)
    requires Enabled(notaries, es)
    ensures
      var s := Run(Start(deadline), n, es);
      && InStep(s.claims, s.data, s.pending, s.votes)
      && Filed(s.pending, s.processed, s.buckets)
      && OneCallback(s.nextId, s.claims, s.told, s.submitted)
  {
    RunKeeps(Start(deadline), n, es, notaries);
  }

  /** In any reachable state the order of the two tests does not matter. */
  lemma OrderIrrelevant(s: Claims, id: ClaimId, verdict: Verdict, notary: Notary, n: nat, notaries: set<Notary>)
    requires Inv(s, notaries) && notary in notaries && |notaries| <= n
    ensures var votes := s.Votes(id)[notary := verdict]; !(Rejected(votes, n) && Approved(votes, n))
  {
    var votes := s.Votes(id)[notary := verdict];
    SubsetSize(votes.Keys, notaries);
    assert |votes.Keys| == |votes|;
    NeverBoth(votes, n);
  }

  // ---- How long a hash is remembered ----

  /** A verified hash stays processed, and so refused, through a step unless that step prunes the very
      bucket it was filed under. */
  lemma RememberedUnlessPruned(s: Claims, n: nat, e: Event, notaries: set<Notary>, h: Hash, b: nat)
    requires Inv(s, notaries) && (b, h) in s.buckets
    ensures h in s.processed
    ensures h in Step(s, n, e).processed <==> !(e.PruneAt? && PrunedBucket(e.now, s.deadline) == b)
    ensures h in Step(s, n, e).processed ==> (b, h) in Step(s, n, e).buckets
  {
  }

  ghost predicate NeverPrunes(s: Claims, n: nat, es: seq<Event>, b: nat)
    decreases |es|
  {
    es == [] || (!(es[0].PruneAt? && PrunedBucket(es[0].now, s.deadline) == b)
                 && NeverPrunes(Step(s, n, es[0]), n, es[1..], b))
  }

  /** Until then, every claim with that hash is refused. */
  lemma {:induction false} RefusedUntilPruned(s: Claims, n: nat, es: seq<Event>, notaries: set<Notary>, h: Hash,
                                              b: nat, c: Claim)
    requires Inv(s, notaries) && (b, h) in s.buckets && Enabled(notaries, es) && NeverPrunes(s, n, es, b) && c.hash == h
    ensures Submit(Run(s, n, es), c) == Err(AlreadyNotarized)
    decreases |es|
  {
    RememberedUnlessPruned(s, n, SetDeadline(s.deadline), notaries, h, b);
    if es != [] {
      StepKeeps(s, n, es[0], notaries);
      RememberedUnlessPruned(s, n, es[0], notaries, h, b);
      RefusedUntilPruned(Step(s, n, es[0]), n, es[1..], notaries, h, b, c);
    }
  }

  lemma FiledUnderNow(now: nat, deadline: Seconds)
    ensures FiledUnder(now, deadline) == PrunedBucket(now, deadline)
  {
    ModPlus(now, deadline);
  }

  /** A hash is meant to be kept for the deadline. But the bucket it is filed under is the one being
      pruned at that very time: a hash verified at `at` is forgotten by a prune at `later` exactly
      when both fall in the same bucket of the deadline's cycle. */
  lemma ForgottenBySameBucket(s: Claims, hash: Hash, at: nat, later: nat, notaries: set<Notary>)
    requires Inv(s, notaries) && hash !in s.processed && hash !in s.pending
    ensures
      var t := Note(s, hash, FiledUnder(at, s.deadline));
      hash in Prune(t, later).processed <==> PrunedBucket(at, s.deadline) != PrunedBucket(later, s.deadline)
  {
    FiledUnderNow(at, s.deadline);
    var t := Note(s, hash, FiledUnder(at, s.deadline));
    var b := PrunedBucket(later, s.deadline);
    assert (b, hash) !in s.buckets;
  }

  /** With the default deadline of a week, a prune one second later can forget the hash. */
  lemma ForgottenAfterOneSecond(s: Claims, hash: Hash, notaries: set<Notary>)
    requires Inv(s, notaries) && hash !in s.processed && hash !in s.pending && s.deadline == 604800
    ensures hash !in Prune(Note(s, hash, FiledUnder(0, s.deadline)), 1).processed
  {
    ForgottenBySameBucket(s, hash, 0, 1, notaries);
  }
}
