/** How many proofs a node can emit for one event, and what two nodes' proofs have in common. */
module EthySafety {
  import opened Prelude
  import opened Arithmetic
  import opened EthySpec

  /** What must hold of a counted vote for digest `d`. */
  predicate GoodVote(vs: seq<AuthorityId>, verify: Verifier, voted: seq<AuthorityId>, v: Vote, d: Digest) {
    && v.index < |vs|
    && vs[v.index] in voted
    && Position(vs, vs[v.index]) == v.index
    && verify(vs[v.index], v.signature, d)
  }

  function Indices(votes: seq<Vote>): set<nat> { set v | v in votes :: v.index }

  predicate DistinctVotes(votes: seq<Vote>) {
    forall i, j :: 0 <= i < j < |votes| ==> votes[i].index != votes[j].index
  }

  /** The proofs emitted for event `e`, in order. */
  function ProofsFor(proofs: seq<Proof>, e: EventId): seq<Proof> {
    if proofs == [] then []
    else
      var (rest, p) := (ProofsFor(proofs[..|proofs| - 1], e), proofs[|proofs| - 1]);
      if p.eventId == e then rest + [p] else rest
  }

  /** Validator indices used up by a list of proofs. */
  function Spent(proofs: seq<Proof>): set<nat> {
    if proofs == [] then {} else Spent(proofs[..|proofs| - 1]) + Indices(proofs[|proofs| - 1].votes)
  }

  /** Votes needed for a proof: at least one is counted before the threshold is looked at. */
  function Needed(n: nat): nat { Max(1, Threshold(n)) }

  // ---- The invariant, event by event ----

  predicate GoodProof(vs: seq<AuthorityId>, verify: Verifier, voted: seq<AuthorityId>, p: Proof) {
    && DistinctVotes(p.votes)
    && |p.votes| >= Needed(|vs|)
    && p.signatures == Slots(|vs|, p.votes)
    && (forall v :: v in p.votes ==> GoodVote(vs, verify, voted, v, p.digest))
  }

  /** The votes counted so far: per digest no index twice, no index under two digests, and none
      that an earlier proof already used. */
  ghost predicate TallyInv(vs: seq<AuthorityId>, verify: Verifier, voted: seq<AuthorityId>,
                           tally: map<Digest, seq<Vote>>, spent: set<nat>) {
    && (forall d :: d in tally ==> DistinctVotes(tally[d]) && Indices(tally[d]) !! spent)
    && (forall d, d' :: d in tally && d' in tally && d != d' ==> Indices(tally[d]) !! Indices(tally[d']))
    && (forall d, v :: d in tally && v in tally[d] ==> GoodVote(vs, verify, voted, v, d))
  }

  /** The proofs emitted so far: each used up its own validators, all of which have voted. */
  ghost predicate SpentInv(vs: seq<AuthorityId>, verify: Verifier, voted: seq<AuthorityId>, proofs: seq<Proof>) {
    && (forall i :: i in Spent(proofs) ==> i < |vs| && vs[i] in voted && Position(vs, vs[i]) == i)
    && (forall i :: 0 <= i < |proofs| ==> GoodProof(vs, verify, voted, proofs[i]))
    && |proofs| * Needed(|vs|) <= |Spent(proofs)|
  }

  /** Each authority is counted at most once per event, over all digests and all proofs. */
  ghost predicate EventInv(vs: seq<AuthorityId>, verify: Verifier, b: Ballot, proofs: seq<Proof>) {
    && Sorted(b.voted)
    && TallyInv(vs, verify, b.voted, b.tally, Spent(proofs))
    && SpentInv(vs, verify, b.voted, proofs)
  }

  lemma {:induction false} PositionFound(vs: seq<AuthorityId>, a: AuthorityId)
    requires a in vs
    ensures Position(vs, a) < |vs| && vs[Position(vs, a)] == a
  {
    if vs[0] != a { PositionFound(vs[1..], a); }
  }

  lemma {:induction false} DistinctCount(votes: seq<Vote>)
    requires DistinctVotes(votes)
    ensures |Indices(votes)| == |votes|
  {
    if votes == [] {
      assert Indices(votes) == {};
    } else {
      var (rest, v) := (votes[..|votes| - 1], votes[|votes| - 1]);
      DistinctCount(rest);
      assert votes == rest + [v];
      assert v.index !in Indices(rest);
      assert Indices(votes) == Indices(rest) + {v.index};
    }
  }

  lemma {:induction false} BelowCount(s: set<nat>, n: nat)
    requires forall i :: i in s ==> i < n
    ensures |s| <= n
  {
    if n == 0 {
      assert s == {};
    } else {
      BelowCount(s - {n - 1}, n - 1);
      assert s <= (s - {n - 1}) + {n - 1};
    }
  }

  /** Later voters do not spoil votes already counted. */
  lemma GoodVoteGrows(vs: seq<AuthorityId>, verify: Verifier, voted: seq<AuthorityId>, more: seq<AuthorityId>)
    requires forall a :: a in voted ==> a in more
    ensures forall v, d :: GoodVote(vs, verify, voted, v, d) ==> GoodVote(vs, verify, more, v, d)
    ensures forall p :: GoodProof(vs, verify, voted, p) ==> GoodProof(vs, verify, more, p)
  {
  }

  lemma TallyGrows(vs: seq<AuthorityId>, verify: Verifier, voted: seq<AuthorityId>, more: seq<AuthorityId>,
                   tally: map<Digest, seq<Vote>>, spent: set<nat>, d: Digest, v: Vote)
    requires TallyInv(vs, verify, voted, tally, spent) && (forall a :: a in voted ==> a in more)
    requires GoodVote(vs, verify, more, v, d) && vs[v.index] !in voted && v.index !in spent
    ensures TallyInv(vs, verify, more, tally[d := Get(tally, d, []) + [v]], spent)
  {
    var before := Get(tally, d, []);
    var after := before + [v];
    var grown := tally[d := after];
    GoodVoteGrows(vs, verify, voted, more);
    forall c, u | c in tally && u in tally[c] ensures u.index != v.index {
      assert GoodVote(vs, verify, voted, u, c);
    }
    assert forall c :: c in tally ==> v.index !in Indices(tally[c]);
    assert Indices(after) == Indices(before) + {v.index};
    assert DistinctVotes(after) by {
      forall i, j | 0 <= i < j < |after| ensures after[i].index != after[j].index {
        assert after[i] in before;
      }
    }
    forall c, c' | c in grown && c' in grown && c != c' ensures Indices(grown[c]) !! Indices(grown[c']) {
    }
    forall c, u | c in grown && u in grown[c] ensures GoodVote(vs, verify, more, u, c) {
      assert (c == d && u == v) || (c in tally && u in tally[c]);
    }
  }

  lemma NoteKeeps(vs: seq<AuthorityId>, verify: Verifier, b: Ballot, proofs: seq<Proof>, w: Witness)
    requires EventInv(vs, verify, b, proofs)
    requires w.authority in vs && w.authority !in b.voted && verify(w.authority, w.signature, w.digest)
    ensures EventInv(vs, verify, Note(vs, b, w), proofs)
    ensures w.digest in Note(vs, b, w).tally && VotesFor(Note(vs, b, w), w.digest) != []
  {
    var c := Note(vs, b, w);
    var v := Vote(Position(vs, w.authority), w.signature);
    PositionFound(vs, w.authority);
    InsertSorted(b.voted, w.authority);
    GoodVoteGrows(vs, verify, b.voted, c.voted);
    TallyGrows(vs, verify, b.voted, c.voted, b.tally, Spent(proofs), w.digest, v);
  }

  lemma {:induction false} SlotsOutside(n: nat, votes: seq<Vote>, i: nat)
    requires i < n && i !in Indices(votes)
    ensures Slots(n, votes)[i] == NO_SIGNATURE
  {
    if votes != [] {
      assert votes == votes[..|votes| - 1] + [votes[|votes| - 1]];
      assert votes[|votes| - 1].index in Indices(votes);
      SlotsOutside(n, votes[..|votes| - 1], i);
    }
  }

  /** Every vote with a distinct index below `n` ends up in its own slot. */
  lemma {:induction false} SlotsFilled(n: nat, votes: seq<Vote>, k: nat)
    requires k < |votes| && DistinctVotes(votes) && (forall v :: v in votes ==> v.index < n)
    ensures Slots(n, votes)[votes[k].index] == votes[k].signature
  {
    var rest := votes[..|votes| - 1];
    assert votes == rest + [votes[|votes| - 1]];
    assert votes[k] in votes && votes[|votes| - 1] in votes;
    if k < |votes| - 1 {
      assert votes[k] == rest[k];
      SlotsFilled(n, rest, k);
    }
  }

  lemma ProveKeeps(vs: seq<AuthorityId>, verify: Verifier, b: Ballot, proofs: seq<Proof>, e: EventId, d: Digest)
    requires EventInv(vs, verify, b, proofs)
    requires d in b.tally && b.tally[d] != [] && Reached(vs, b, d)
    ensures
      var p := Proof(e, d, b.tally[d], Slots(|vs|, b.tally[d]));
      EventInv(vs, verify, Ballot(b.voted, map[]), proofs + [p])
  {
    var p := Proof(e, d, b.tally[d], Slots(|vs|, b.tally[d]));
    SpentGrows(vs, verify, b.voted, proofs, p) by {
      assert GoodProof(vs, verify, b.voted, p);
    }
    assert TallyInv(vs, verify, b.voted, map[], Spent(proofs + [p]));
  }

  lemma SpentGrows(vs: seq<AuthorityId>, verify: Verifier, voted: seq<AuthorityId>, proofs: seq<Proof>, p: Proof)
    requires SpentInv(vs, verify, voted, proofs) && GoodProof(vs, verify, voted, p)
    requires Indices(p.votes) !! Spent(proofs)
    ensures SpentInv(vs, verify, voted, proofs + [p])
  {
    var all := proofs + [p];
    SpentAppend(proofs, p);
    forall i | i in Spent(all) ensures i < |vs| && vs[i] in voted && Position(vs, vs[i]) == i {
      if i in Indices(p.votes) {
        var v :| v in p.votes && v.index == i;
        assert GoodVote(vs, verify, voted, v, p.digest);
      }
    }
    assert |all| * Needed(|vs|) <= |Spent(all)| by {
      DistinctCount(p.votes);
      CountUp(|proofs|, Needed(|vs|), |Spent(proofs)|, |p.votes|);
    }
  }

  lemma SpentAppend(proofs: seq<Proof>, p: Proof)
    ensures Spent(proofs + [p]) == Spent(proofs) + Indices(p.votes)
  {
    assert (proofs + [p])[..|proofs|] == proofs;
  }

  lemma CountUp(k: nat, needed: nat, spent: nat, votes: nat)
    requires k * needed <= spent && needed <= votes
    ensures (k + 1) * needed <= spent + votes
  {
  }

  // ---- Whole nodes ----

  ghost predicate NodeInv(vs: seq<AuthorityId>, verify: Verifier, n: Node) {
    && (forall e :: EventInv(vs, verify, n.BallotOf(e), ProofsFor(n.proofs, e)))
    && (forall w :: w in n.inbox ==> w.authority in vs && verify(w.authority, w.signature, w.digest))
  }

  lemma ProofsForAppend(proofs: seq<Proof>, p: Proof, e: EventId)
    ensures ProofsFor(proofs + [p], e) == if p.eventId == e then ProofsFor(proofs, e) + [p] else ProofsFor(proofs, e)
  {
    assert (proofs + [p])[..|proofs|] == proofs;
  }

  lemma HandleKeeps(vs: seq<AuthorityId>, verify: Verifier, n: Node, w: Witness)
    requires NodeInv(vs, verify, n)
    requires w.authority in vs && verify(w.authority, w.signature, w.digest)
    ensures NodeInv(vs, verify, HandleWitness(vs, n, w))
  {
    var m := HandleWitness(vs, n, w);
    assert m.inbox == n.inbox;
    forall f ensures EventInv(vs, verify, m.BallotOf(f), ProofsFor(m.proofs, f)) {
      assert EventInv(vs, verify, n.BallotOf(f), ProofsFor(n.proofs, f));
      HandleAt(vs, verify, n, w, f);
    }
  }

  lemma HandleAt(vs: seq<AuthorityId>, verify: Verifier, n: Node, w: Witness, f: EventId)
    requires EventInv(vs, verify, n.BallotOf(f), ProofsFor(n.proofs, f))
    requires w.authority in vs && verify(w.authority, w.signature, w.digest)
    ensures
      var m := HandleWitness(vs, n, w);
      EventInv(vs, verify, m.BallotOf(f), ProofsFor(m.proofs, f))
  {
    var (e, b) := (w.eventId, n.BallotOf(w.eventId));
    if w.authority !in b.voted {
      var c := Note(vs, b, w);
      var p := Proof(e, w.digest, VotesFor(c, w.digest), Slots(|vs|, VotesFor(c, w.digest)));
      ProofsForAppend(n.proofs, p, f);
      if f == e {
        NoteKeeps(vs, verify, b, ProofsFor(n.proofs, e), w);
        if Reached(vs, c, w.digest) {
          ProveKeeps(vs, verify, c, ProofsFor(n.proofs, e), e, w.digest);
        }
      }
    }
  }

  lemma StepKeeps(vs: seq<AuthorityId>, verify: Verifier, n: Node, i: Input)
    requires NodeInv(vs, verify, n) && OwnVotesSigned(vs, verify, [i])
    ensures NodeInv(vs, verify, Step(vs, verify, n, i))
  {
    match i
    case Receive(w) =>
      var m := Validate(vs, verify, n, w);
      forall f ensures EventInv(vs, verify, m.BallotOf(f), ProofsFor(m.proofs, f)) {
        assert EventInv(vs, verify, n.BallotOf(f), ProofsFor(n.proofs, f));
      }
    case Process(k) =>
      if k < |n.inbox| {
        var m := n.(inbox := n.inbox[..k] + n.inbox[k + 1..]);
        forall f ensures EventInv(vs, verify, m.BallotOf(f), ProofsFor(m.proofs, f)) {
          assert EventInv(vs, verify, n.BallotOf(f), ProofsFor(n.proofs, f));
        }
        assert n.inbox[k] in n.inbox;
        HandleKeeps(vs, verify, m, n.inbox[k]);
      }
    case Own(w) =>
      assert [i][0] == i;
      HandleKeeps(vs, verify, n, w);
  }

  lemma {:induction false} RunKeeps(vs: seq<AuthorityId>, verify: Verifier, inputs: seq<Input>)
    requires OwnVotesSigned(vs, verify, inputs)
    ensures NodeInv(vs, verify, Run(vs, verify, FRESH_NODE, inputs))
  {
    if inputs == [] {
      assert forall e :: FRESH_NODE.BallotOf(e) == EMPTY_BALLOT && ProofsFor([], e) == [];
      assert EventInv(vs, verify, EMPTY_BALLOT, []);
    } else {
      var (rest, i) := (inputs[..|inputs| - 1], inputs[|inputs| - 1]);
      assert inputs == rest + [i];
      RunKeeps(vs, verify, rest);
      StepKeeps(vs, verify, Run(vs, verify, FRESH_NODE, rest), i);
    }
  }

  /** Over its whole run a node emits at most n / max(1, floor(3n/5)) proofs for one event. */
  lemma ProofsPerEvent(vs: seq<AuthorityId>, verify: Verifier, inputs: seq<Input>, e: EventId)
    requires OwnVotesSigned(vs, verify, inputs)
    ensures |ProofsFor(Run(vs, verify, FRESH_NODE, inputs).proofs, e)| * Needed(|vs|) <= |vs|
  {
    var n := Run(vs, verify, FRESH_NODE, inputs);
    RunKeeps(vs, verify, inputs);
    assert EventInv(vs, verify, n.BallotOf(e), ProofsFor(n.proofs, e));
    BelowCount(Spent(ProofsFor(n.proofs, e)), |vs|);
  }

  /** The validator-set sizes at which two groups of voters cannot both reach the threshold. */
  lemma OneProofSizes(n: nat)
    ensures 2 * Needed(n) > n <==> n <= 1 || n == 5 || n == 7 || n >= 9
  {
  }

  /** With such a set, a node never concludes an event twice. */
  lemma AtMostOneProof(vs: seq<AuthorityId>, verify: Verifier, inputs: seq<Input>, e: EventId)
    requires OwnVotesSigned(vs, verify, inputs)
    requires |vs| <= 1 || |vs| == 5 || |vs| == 7 || |vs| >= 9
    ensures |ProofsFor(Run(vs, verify, FRESH_NODE, inputs).proofs, e)| <= 1
  {
    var k := |ProofsFor(Run(vs, verify, FRESH_NODE, inputs).proofs, e)|;
    ProofsPerEvent(vs, verify, inputs, e);
    OneProofSizes(|vs|);
    if 2 <= k { MulMono(2, k, Needed(|vs|), Needed(|vs|)); }
  }

  lemma {:induction false} ProofsForContains(proofs: seq<Proof>, p: Proof)
    requires p in proofs
    ensures p in ProofsFor(proofs, p.eventId)
  {
    var last := proofs[|proofs| - 1];
    assert proofs == proofs[..|proofs| - 1] + [last];
    if p != last { ProofsForContains(proofs[..|proofs| - 1], p); }
  }

  /** A proof a node has emitted: a threshold of distinct validators, each one's valid signature
      in the slot of its own index, and nothing in the other slots. */
  lemma ProofIsSound(vs: seq<AuthorityId>, verify: Verifier, inputs: seq<Input>, p: Proof)
    requires OwnVotesSigned(vs, verify, inputs) && p in Run(vs, verify, FRESH_NODE, inputs).proofs
    ensures
      var signers := Indices(p.votes);
      && |signers| >= Threshold(|vs|) && |p.signatures| == |vs|
      && (forall i :: i in signers ==> i < |vs| && verify(vs[i], p.signatures[i], p.digest) && Position(vs, vs[i]) == i)
      && (forall i :: 0 <= i < |vs| && i !in signers ==> p.signatures[i] == NO_SIGNATURE)
  {
    var n := Run(vs, verify, FRESH_NODE, inputs);
    RunKeeps(vs, verify, inputs);
    ProofsForContains(n.proofs, p);
    var b := n.BallotOf(p.eventId);
    assert EventInv(vs, verify, b, ProofsFor(n.proofs, p.eventId));
    assert GoodProof(vs, verify, b.voted, p);
    DistinctCount(p.votes);
    forall i | i in Indices(p.votes)
      ensures i < |vs| && verify(vs[i], p.signatures[i], p.digest) && Position(vs, vs[i]) == i
    {
      var k :| 0 <= k < |p.votes| && p.votes[k].index == i;
      assert GoodVote(vs, verify, b.voted, p.votes[k], p.digest);
      assert forall v :: v in p.votes ==> GoodVote(vs, verify, b.voted, v, p.digest);
      SlotsFilled(|vs|, p.votes, k);
    }
    forall i | 0 <= i < |vs| && i !in Indices(p.votes) ensures p.signatures[i] == NO_SIGNATURE {
      SlotsOutside(|vs|, p.votes, i);
    }
  }

  /** Validators, by index, with a valid signature on both digests. */
  ghost predicate SignedBoth(vs: seq<AuthorityId>, verify: Verifier, i: nat, d: Digest, d': Digest) {
    && i < |vs| && Position(vs, vs[i]) == i
    && (exists s :: verify(vs[i], s, d)) && (exists s :: verify(vs[i], s, d'))
  }

  /** Any two proofs emitted by any two nodes over the same validator set, even for different
      digests of one event, share at least 2 * floor(3n/5) - n validators that signed both. */
  lemma ConflictingProofsNeedDoubleSigners(vs: seq<AuthorityId>, verify: Verifier,
                                           one: seq<Input>, two: seq<Input>, p: Proof, q: Proof)
    requires OwnVotesSigned(vs, verify, one) && p in Run(vs, verify, FRESH_NODE, one).proofs
    requires OwnVotesSigned(vs, verify, two) && q in Run(vs, verify, FRESH_NODE, two).proofs
    ensures
      var both := Indices(p.votes) * Indices(q.votes);
      && |both| >= 2 * Threshold(|vs|) - |vs|
      && forall i :: i in both ==> SignedBoth(vs, verify, i, p.digest, q.digest)
  {
    ProofIsSound(vs, verify, one, p);
    ProofIsSound(vs, verify, two, q);
    var (a, b) := (Indices(p.votes), Indices(q.votes));
    BelowCount(a + b, |vs|);
    assert |a + b| + |a * b| == |a| + |b|;
  }
}
