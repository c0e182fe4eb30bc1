/** When a node emits a proof: exactly when enough validators voted for one digest first. */
module EthyProgress {
  import opened Prelude
  import opened EthySpec
  import opened EthySafety

  // ---- What the worker saw ----

  /** The witnesses the worker has taken up, in order. */
  function Handled(vs: seq<AuthorityId>, verify: Verifier, inputs: seq<Input>): seq<Witness>
    decreases |inputs|
  {
    if inputs == [] then []
    else
      var (rest, last) := (inputs[..|inputs| - 1], inputs[|inputs| - 1]);
      var n := Run(vs, verify, FRESH_NODE, rest);
      Handled(vs, verify, rest) +
      match last
      case Receive(_) => []
      case Process(k) => if k < |n.inbox| then [n.inbox[k]] else []
      case Own(w) => [w]
  }

  /** The digest `a` voted for first on event `e`. */
  function FirstDigest(h: seq<Witness>, e: EventId, a: AuthorityId): Option<Digest> {
    if h == [] then None
    else
      var (before, w) := (FirstDigest(h[..|h| - 1], e, a), h[|h| - 1]);
      if before.None? && w.eventId == e && w.authority == a then Some(w.digest) else before
  }

  /** The validators whose first vote on `e` was for `d`. */
  function Supporters(vs: seq<AuthorityId>, h: seq<Witness>, e: EventId, d: Digest): set<AuthorityId> {
    set a | a in vs && FirstDigest(h, e, a) == Some(d)
  }

  lemma FirstDigestAppend(h: seq<Witness>, w: Witness, e: EventId, a: AuthorityId)
    ensures FirstDigest(h + [w], e, a) ==
      if FirstDigest(h, e, a).None? && w.eventId == e && w.authority == a then Some(w.digest)
      else FirstDigest(h, e, a)
  {
    assert (h + [w])[..|h|] == h;
  }

  /** A first vote adds its author to the supporters of its digest, and nothing else does. */
  lemma SupportersAppend(vs: seq<AuthorityId>, h: seq<Witness>, w: Witness, e: EventId, d: Digest)
    requires w.authority in vs
    ensures Supporters(vs, h + [w], e, d) == Supporters(vs, h, e, d) +
      if w.eventId == e && w.digest == d && FirstDigest(h, e, w.authority).None? then {w.authority} else {}
  {
    forall a ensures a in Supporters(vs, h + [w], e, d) <==>
        a in Supporters(vs, h, e, d)
        || (a == w.authority && w.eventId == e && w.digest == d && FirstDigest(h, e, a).None?) {
      FirstDigestAppend(h, w, e, a);
    }
  }

  // ---- One event ----

  /** The record of event `e` agrees with the first votes: before the first proof all of them are counted and
      none suffices; every proof has the votes it needs. */
  ghost predicate Tracks(vs: seq<AuthorityId>, h: seq<Witness>, e: EventId, b: Ballot, proofs: seq<Proof>) {
    && Sorted(b.voted)
    && (forall a :: a in b.voted <==> FirstDigest(h, e, a).Some?)
    && (forall d :: |VotesFor(b, d)| <= |Supporters(vs, h, e, d)|)
    && (proofs == [] ==> forall d :: |VotesFor(b, d)| == |Supporters(vs, h, e, d)| < Needed(|vs|))
    && (forall i :: 0 <= i < |proofs| ==> |Supporters(vs, h, e, proofs[i].digest)| >= Needed(|vs|))
  }

  lemma SupportGrows(vs: seq<AuthorityId>, h: seq<Witness>, w: Witness, e: EventId, d: Digest)
    requires w.authority in vs
    ensures
      var (was, now) := (Supporters(vs, h, e, d), Supporters(vs, h + [w], e, d));
      |now| == |was| + if w.eventId == e && w.digest == d && FirstDigest(h, e, w.authority).None? then 1 else 0
  {
    SupportersAppend(vs, h, w, e, d);
    assert FirstDigest(h, e, w.authority).None? ==> w.authority !in Supporters(vs, h, e, d);
  }

  lemma OtherEvent(vs: seq<AuthorityId>, h: seq<Witness>, w: Witness, e: EventId, b: Ballot, proofs: seq<Proof>)
    requires Tracks(vs, h, e, b, proofs) && w.authority in vs
    requires w.eventId != e || w.authority in b.voted
    ensures Tracks(vs, h + [w], e, b, proofs)
  {
    forall a ensures FirstDigest(h + [w], e, a) == FirstDigest(h, e, a) { FirstDigestAppend(h, w, e, a); }
    forall d ensures Supporters(vs, h + [w], e, d) == Supporters(vs, h, e, d) { SupportersAppend(vs, h, w, e, d); }
  }

  /** A first vote on `e`: counted, and if it is the last one needed, proved. */
  lemma NewVote(vs: seq<AuthorityId>, h: seq<Witness>, w: Witness, b: Ballot, proofs: seq<Proof>, p: Proof)
    requires Tracks(vs, h, w.eventId, b, proofs) && w.authority in vs && w.authority !in b.voted
    requires p.digest == w.digest
    ensures
      var (c, e) := (Note(vs, b, w), w.eventId);
      if Reached(vs, c, w.digest) then Tracks(vs, h + [w], e, Ballot(c.voted, map[]), proofs + [p])
      else Tracks(vs, h + [w], e, c, proofs)
  {
    var (c, e, g) := (Note(vs, b, w), w.eventId, h + [w]);
    InsertSorted(b.voted, w.authority);
    forall a ensures a in c.voted <==> FirstDigest(g, e, a).Some? { FirstDigestAppend(h, w, e, a); }
    forall d
        ensures |Supporters(vs, h, e, d)| <= |Supporters(vs, g, e, d)|
          && |VotesFor(c, d)| - |VotesFor(b, d)| == |Supporters(vs, g, e, d)| - |Supporters(vs, h, e, d)| {
      SupportGrows(vs, h, w, e, d);
    }
  }

  // ---- Whole runs ----

  lemma HandleTracks(vs: seq<AuthorityId>, h: seq<Witness>, n: Node, w: Witness, f: EventId)
    requires Tracks(vs, h, f, n.BallotOf(f), ProofsFor(n.proofs, f)) && w.authority in vs
    ensures
      var m := HandleWitness(vs, n, w);
      Tracks(vs, h + [w], f, m.BallotOf(f), ProofsFor(m.proofs, f))
  {
    var (e, b, m) := (w.eventId, n.BallotOf(w.eventId), HandleWitness(vs, n, w));
    var c := Note(vs, b, w);
    var p := Proof(e, w.digest, VotesFor(c, w.digest), Slots(|vs|, VotesFor(c, w.digest)));
    ProofsForAppend(n.proofs, p, f);
    if w.authority in b.voted {
      assert m == n;
      OtherEvent(vs, h, w, f, n.BallotOf(f), ProofsFor(n.proofs, f));
    } else if f != e {
      assert m.BallotOf(f) == n.BallotOf(f) && ProofsFor(m.proofs, f) == ProofsFor(n.proofs, f);
      OtherEvent(vs, h, w, f, n.BallotOf(f), ProofsFor(n.proofs, f));
    } else if Reached(vs, c, w.digest) {
      assert m.BallotOf(f) == Ballot(c.voted, map[]) && ProofsFor(m.proofs, f) == ProofsFor(n.proofs, f) + [p];
      NewVote(vs, h, w, b, ProofsFor(n.proofs, e), p);
    } else {
      assert m.BallotOf(f) == c && m.proofs == n.proofs;
      NewVote(vs, h, w, b, ProofsFor(n.proofs, e), p);
    }
  }

  lemma QueuedByValidators(vs: seq<AuthorityId>, verify: Verifier, inputs: seq<Input>, k: nat)
    requires OwnVotesSigned(vs, verify, inputs) && k < |Run(vs, verify, FRESH_NODE, inputs).inbox|
    ensures Run(vs, verify, FRESH_NODE, inputs).inbox[k].authority in vs
  {
    RunKeeps(vs, verify, inputs);
    assert Run(vs, verify, FRESH_NODE, inputs).inbox[k] in Run(vs, verify, FRESH_NODE, inputs).inbox;
  }

  lemma ReceiveTracks(vs: seq<AuthorityId>, verify: Verifier, n: Node, w: Witness)
    ensures Validate(vs, verify, n, w).ballots == n.ballots && Validate(vs, verify, n, w).proofs == n.proofs
  {
  }

  lemma HandledAppend(vs: seq<AuthorityId>, verify: Verifier, rest: seq<Input>, last: Input)
    ensures
      var n := Run(vs, verify, FRESH_NODE, rest);
      && Run(vs, verify, FRESH_NODE, rest + [last]) == Step(vs, verify, n, last)
      && Handled(vs, verify, rest + [last]) == Handled(vs, verify, rest) +
         match last
         case Receive(_) => []
         case Process(k) => if k < |n.inbox| then [n.inbox[k]] else []
         case Own(w) => [w]
  {
    assert (rest + [last])[..|rest|] == rest;
  }

  lemma {:induction false} RunTracks(vs: seq<AuthorityId>, verify: Verifier, inputs: seq<Input>, e: EventId)
    requires OwnVotesSigned(vs, verify, inputs)
    ensures
      var n := Run(vs, verify, FRESH_NODE, inputs);
      Tracks(vs, Handled(vs, verify, inputs), e, n.BallotOf(e), ProofsFor(n.proofs, e))
    decreases |inputs|
  {
    if inputs == [] {
      forall d ensures Supporters(vs, [], e, d) == {} {}
    } else {
      var (rest, last) := (inputs[..|inputs| - 1], inputs[|inputs| - 1]);
      var (n, h) := (Run(vs, verify, FRESH_NODE, rest), Handled(vs, verify, rest));
      assert inputs == rest + [last];
      RunTracks(vs, verify, rest, e);
      HandledAppend(vs, verify, rest, last);
      match last
      case Receive(w) =>
        ReceiveTracks(vs, verify, n, w);
        assert h + [] == h;
      case Process(k) =>
        if k < |n.inbox| {
          QueuedByValidators(vs, verify, rest, k);
          HandleTracks(vs, h, n.(inbox := n.inbox[..k] + n.inbox[k + 1..]), n.inbox[k], e);
        } else {
          assert h + [] == h;
        }
      case Own(w) => HandleTracks(vs, h, n, w, e);
    }
  }

  /** Over any run and for every size of the set: a node has emitted no proof for an event if and only if for no
      digest enough validators voted first, max(1, floor(3n/5)) being enough. */
  lemma ProofExactly(vs: seq<AuthorityId>, verify: Verifier, inputs: seq<Input>, e: EventId)
    requires OwnVotesSigned(vs, verify, inputs)
    ensures
      var (proofs, h) := (Run(vs, verify, FRESH_NODE, inputs).proofs, Handled(vs, verify, inputs));
      && (ProofsFor(proofs, e) == [] <==> forall d :: |Supporters(vs, h, e, d)| < Needed(|vs|))
      && (forall i :: 0 <= i < |ProofsFor(proofs, e)| ==>
            |Supporters(vs, h, e, ProofsFor(proofs, e)[i].digest)| >= Needed(|vs|))
  {
    RunTracks(vs, verify, inputs, e);
    var ps := ProofsFor(Run(vs, verify, FRESH_NODE, inputs).proofs, e);
    if ps != [] {
      assert |Supporters(vs, Handled(vs, verify, inputs), e, ps[0].digest)| >= Needed(|vs|);
    }
  }

  function Members(vs: seq<AuthorityId>): set<AuthorityId> { set a | a in vs }

  lemma {:induction false} MemberCount(vs: seq<AuthorityId>)
    ensures |Members(vs)| <= |vs|
  {
    if vs == [] {
      assert Members(vs) == {};
    } else {
      var rest := vs[..|vs| - 1];
      MemberCount(rest);
      assert vs == rest + [vs[|vs| - 1]];
      assert Members(vs) == Members(rest) + {vs[|vs| - 1]};
    }
  }

  /** Supporters of two digests are different validators. */
  lemma NotBothSupported(vs: seq<AuthorityId>, h: seq<Witness>, e: EventId, d: Digest, d': Digest)
    requires d != d'
    ensures |Supporters(vs, h, e, d)| + |Supporters(vs, h, e, d')| <= |vs|
  {
    var (a, b, all) := (Supporters(vs, h, e, d), Supporters(vs, h, e, d'), Members(vs));
    assert a * b == {} && a + b <= all;
    SubsetSize(a + b, all);
    MemberCount(vs);
    assert |a + b| == |a| + |b|;
  }

  /** For the sizes that allow one proof only: after any run the event is proved for digest `d` if and only if
      enough validators voted for `d` first. */
  lemma ProvedExactly(vs: seq<AuthorityId>, verify: Verifier, inputs: seq<Input>, e: EventId, d: Digest)
    requires OwnVotesSigned(vs, verify, inputs)
    requires |vs| <= 1 || |vs| == 5 || |vs| == 7 || |vs| >= 9
    ensures
      var (ps, h) := (ProofsFor(Run(vs, verify, FRESH_NODE, inputs).proofs, e), Handled(vs, verify, inputs));
      (|ps| == 1 && ps[0].digest == d) <==> |Supporters(vs, h, e, d)| >= Needed(|vs|)
  {
    var (ps, h) := (ProofsFor(Run(vs, verify, FRESH_NODE, inputs).proofs, e), Handled(vs, verify, inputs));
    ProofExactly(vs, verify, inputs, e);
    AtMostOneProof(vs, verify, inputs, e);
    OneProofSizes(|vs|);
    if |Supporters(vs, h, e, d)| >= Needed(|vs|) {
      assert ps != [];
      if ps[0].digest != d { NotBothSupported(vs, h, e, d, ps[0].digest); }
    }
  }

  // ---- Gossip ----

  lemma {:induction false} InsertHolds(v: seq<nat>, x: nat)
    ensures LowerBound(v, x) <= |v| && x in Insert(v, x) && forall y :: y in v ==> y in Insert(v, x)
  {
    LowerBoundFits(v, x);
    var i := LowerBound(v, x);
    assert v == v[..i] + v[i..];
    assert Insert(v, x)[i] == x;
  }

  lemma {:induction false} LowerBoundFits(v: seq<nat>, x: nat)
    ensures LowerBound(v, x) <= |v|
  {
    if v != [] && v[0] < x { LowerBoundFits(v[1..], x); }
  }

  predicate Knows(n: Node, e: EventId, a: AuthorityId) { a in Get(n.known, e, []) }

  /** A witness is passed on to the worker at most once: from then on every witness of that authority on that event
      is refused, until the event is proved. */
  lemma KnownUntilProved(vs: seq<AuthorityId>, verify: Verifier, n: Node, i: Input, e: EventId, a: AuthorityId)
    requires Knows(n, e, a) || (i.Receive? && Accepts(vs, verify, n, i.w) && i.w.eventId == e && i.w.authority == a)
    ensures
      var m := Step(vs, verify, n, i);
      && (m.proofs == n.proofs ==> Knows(m, e, a))
      && (Knows(m, e, a) ==> forall w: Witness :: w.eventId == e && w.authority == a ==> !Accepts(vs, verify, m, w))
  {
    match i
    case Receive(w) => InsertHolds(Get(n.known, w.eventId, []), w.authority);
    case Process(k) => if k < |n.inbox| { HandleKnown(vs, n.(inbox := n.inbox[..k] + n.inbox[k + 1..]), n.inbox[k]); }
    case Own(w) => HandleKnown(vs, n, w);
  }

  lemma HandleKnown(vs: seq<AuthorityId>, n: Node, w: Witness)
    ensures HandleWitness(vs, n, w).proofs == n.proofs ==> HandleWitness(vs, n, w).known == n.known
  {
  }

  // ---- Completed events ----

  /** Marking an event complete puts it into the list, drops only the smallest event, and only if more than
      thirty were there. */
  lemma MarkCompleteEffect(complete: seq<EventId>, e: EventId)
    requires Sorted(complete)
    ensures
      var r := MarkComplete(complete, e);
      && Sorted(r) && e in r
      && (|complete| <= 30 ==> forall x :: x in r <==> x in complete || x == e)
      && (|complete| > 30 ==> forall x :: x in r <==> (x in complete && x != complete[0]) || x == e)
      && |r| <= Max(|complete|, 30) + 1 && (|complete| > 30 ==> |r| <= |complete|)
  {
    var c := Trimmed(complete);
    if |complete| > 30 { assert complete == [complete[0]] + c; }
    assert Sorted(c);
    if e !in c { InsertSorted(c, e); }
  }

  ghost predicate CompleteOk(n: Node) {
    && Sorted(n.complete) && |n.complete| <= 31
    && (forall e :: e in n.complete ==> ProofsFor(n.proofs, e) != [])
  }

  lemma HandleComplete(vs: seq<AuthorityId>, n: Node, w: Witness)
    requires CompleteOk(n)
    ensures
      var m := HandleWitness(vs, n, w);
      && CompleteOk(m)
      && (m.proofs != n.proofs ==> w.eventId in m.complete && m.known == n.known - {w.eventId})
      && (m.proofs == n.proofs ==> m.complete == n.complete && m.known == n.known)
  {
    var (e, b) := (w.eventId, n.BallotOf(w.eventId));
    if w.authority !in b.voted {
      var c := Note(vs, b, w);
      if Reached(vs, c, w.digest) {
        var p := Proof(e, w.digest, VotesFor(c, w.digest), Slots(|vs|, VotesFor(c, w.digest)));
        MarkCompleteEffect(n.complete, e);
        forall f ensures ProofsFor(n.proofs + [p], f) ==
            if f == e then ProofsFor(n.proofs, f) + [p] else ProofsFor(n.proofs, f) {
          ProofsForAppend(n.proofs, p, f);
        }
        assert HandleWitness(vs, n, w).proofs == n.proofs + [p];
      }
    }
  }

  /** Over any run the list of completed events is sorted, bounded, and lists only proved events; an event is on it
      as soon as it is proved. */
  lemma {:induction false} RunComplete(vs: seq<AuthorityId>, verify: Verifier, inputs: seq<Input>)
    ensures CompleteOk(Run(vs, verify, FRESH_NODE, inputs))
    decreases |inputs|
  {
    if inputs != [] {
      var (rest, last) := (inputs[..|inputs| - 1], inputs[|inputs| - 1]);
      var n := Run(vs, verify, FRESH_NODE, rest);
      RunComplete(vs, verify, rest);
      match last
      case Receive(_) =>
      case Process(k) =>
        if k < |n.inbox| { HandleComplete(vs, n.(inbox := n.inbox[..k] + n.inbox[k + 1..]), n.inbox[k]); }
      case Own(w) => HandleComplete(vs, n, w);
    }
  }
}
