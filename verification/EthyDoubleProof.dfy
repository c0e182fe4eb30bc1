/** The other validator-set sizes: a run in which one node concludes one event twice. */
module EthyDoubleProof {
  import opened Prelude
  import opened EthySpec
  import opened EthySafety

  const TRUSTING: Verifier := (a, s, d) => true

  /** The validators vote one after the other on the same digest of the same event. */
  function Ballots(vs: seq<AuthorityId>, k: nat): seq<Input>
    requires k <= |vs|
  {
    if k == 0 then [] else Ballots(vs, k - 1) + [Receive(Witness(0, 0, vs[k - 1], 1)), Process(0)]
  }

  lemma RunTwo(vs: seq<AuthorityId>, verify: Verifier, n: Node, inputs: seq<Input>, i: Input, j: Input)
    ensures Run(vs, verify, n, inputs + [i, j]) == Step(vs, verify, Step(vs, verify, Run(vs, verify, n, inputs), i), j)
  {
    var all := inputs + [i, j];
    assert all[..|all| - 1] == inputs + [i];
    assert (inputs + [i])[..|inputs|] == inputs;
  }

  /** Votes waiting and proofs emitted after `k` of those ballots. */
  function Expected(t: nat, k: nat): (nat, nat) {
    if k < t then (k, 0) else if k < 2 * t then (k - t, 1) else (0, 2)
  }

  predicate Among(v: seq<AuthorityId>, vs: seq<AuthorityId>, k: nat)
    requires k <= |vs|
  {
    forall a :: a in v ==> a in vs[..k]
  }

  predicate AfterVotes(vs: seq<AuthorityId>, n: Node, k: nat)
    requires k <= |vs|
  {
    && n.inbox == []
    && Sorted(n.BallotOf(0).voted) && Among(n.BallotOf(0).voted, vs, k)
    && Sorted(Get(n.known, 0, [])) && Among(Get(n.known, 0, []), vs, k)
    && (|VotesFor(n.BallotOf(0), 0)|, |ProofsFor(n.proofs, 0)|) == Expected(Threshold(|vs|), k)
  }

  lemma StillAmong(v: seq<AuthorityId>, vs: seq<AuthorityId>, k: nat)
    requires k < |vs| && Distinct(vs) && Sorted(v) && Among(v, vs, k)
    ensures vs[k] !in v
    ensures Sorted(Insert(v, vs[k])) && Among(Insert(v, vs[k]), vs, k + 1) && Among(v, vs, k + 1)
  {
    assert vs[k] !in vs[..k];
    assert forall a :: a in vs[..k] ==> a in vs[..k + 1];
    assert vs[k] == vs[..k + 1][k];
    InsertSorted(v, vs[k]);
  }

  /** Gossip accepts the next ballot, and the worker finds it alone in its queue. */
  lemma NextAccepted(vs: seq<AuthorityId>, n: Node, k: nat)
    requires k < |vs| && Distinct(vs) && AfterVotes(vs, n, k)
    ensures
      var w := Witness(0, 0, vs[k], 1);
      var m := n.(known := n.known[0 := Insert(Get(n.known, 0, []), vs[k])]);
      Step(vs, TRUSTING, Step(vs, TRUSTING, n, Receive(w)), Process(0)) == HandleWitness(vs, m, w)
  {
    var w := Witness(0, 0, vs[k], 1);
    StillAmong(Get(n.known, 0, []), vs, k);
    assert Accepts(vs, TRUSTING, n, w);
    assert n.inbox + [w] == [w];
    assert [w][..0] + [w][1..] == [];
  }

  lemma NextCounted(vs: seq<AuthorityId>, n: Node, k: nat)
    requires k < |vs| && Distinct(vs) && AfterVotes(vs, n, k)
    ensures
      var w := Witness(0, 0, vs[k], 1);
      var b := Note(vs, n.BallotOf(0), w);
      && w.authority !in n.BallotOf(0).voted
      && Sorted(b.voted) && Among(b.voted, vs, k + 1)
      && |VotesFor(b, 0)| == |VotesFor(n.BallotOf(0), 0)| + 1
  {
    StillAmong(n.BallotOf(0).voted, vs, k);
  }

  lemma OneMoreVote(vs: seq<AuthorityId>, n: Node, k: nat)
    requires k < |vs| && Distinct(vs) && AfterVotes(vs, n, k)
    requires 1 <= Threshold(|vs|) && k < 2 * Threshold(|vs|) <= |vs|
    ensures
      var m := Step(vs, TRUSTING, Step(vs, TRUSTING, n, Receive(Witness(0, 0, vs[k], 1))), Process(0));
      AfterVotes(vs, m, k + 1)
  {
    var w := Witness(0, 0, vs[k], 1);
    var q := n.(known := n.known[0 := Insert(Get(n.known, 0, []), vs[k])]);
    NextAccepted(vs, n, k);
    NextCounted(vs, n, k);
    StillAmong(Get(n.known, 0, []), vs, k);
    HandleEffect(vs, q, w);
    Assemble(vs, n, HandleWitness(vs, q, w), Note(vs, n.BallotOf(0), w), Insert(Get(n.known, 0, []), vs[k]), k);
  }

  lemma Assemble(vs: seq<AuthorityId>, n: Node, m: Node, b: Ballot, known: seq<AuthorityId>, k: nat)
    requires k < |vs| && AfterVotes(vs, n, k) && 1 <= Threshold(|vs|) && k < 2 * Threshold(|vs|) <= |vs|
    requires m.inbox == n.inbox && Sorted(b.voted) && Among(b.voted, vs, k + 1)
    requires Sorted(known) && Among(known, vs, k + 1)
    requires |VotesFor(b, 0)| == |VotesFor(n.BallotOf(0), 0)| + 1
    requires if Reached(vs, b, 0)
             then m.BallotOf(0) == Ballot(b.voted, map[]) && Get(m.known, 0, []) == []
                  && |ProofsFor(m.proofs, 0)| == |ProofsFor(n.proofs, 0)| + 1
             else m.BallotOf(0) == b && Get(m.known, 0, []) == known && m.proofs == n.proofs
    ensures AfterVotes(vs, m, k + 1)
  {
  }

  /** What processing a first vote for event 0 changes. */
  lemma HandleEffect(vs: seq<AuthorityId>, n: Node, w: Witness)
    requires w.eventId == 0 && w.authority !in n.BallotOf(0).voted
    ensures
      var b := Note(vs, n.BallotOf(0), w);
      var m := HandleWitness(vs, n, w);
      && m.inbox == n.inbox
      && (Reached(vs, b, w.digest) ==>
            && m.BallotOf(0) == Ballot(b.voted, map[]) && Get(m.known, 0, []) == []
            && |ProofsFor(m.proofs, 0)| == |ProofsFor(n.proofs, 0)| + 1)
      && (!Reached(vs, b, w.digest) ==> m.BallotOf(0) == b && m.known == n.known && m.proofs == n.proofs)
  {
    var votes := VotesFor(Note(vs, n.BallotOf(0), w), w.digest);
    ProofsForAppend(n.proofs, Proof(0, w.digest, votes, Slots(|vs|, votes)), 0);
  }

  lemma {:induction false} RunOfBallots(vs: seq<AuthorityId>, k: nat)
    requires k <= 2 * Threshold(|vs|) <= |vs| && Distinct(vs) && 1 <= Threshold(|vs|)
    ensures AfterVotes(vs, Run(vs, TRUSTING, FRESH_NODE, Ballots(vs, k)), k)
  {
    if k > 0 {
      var n := Run(vs, TRUSTING, FRESH_NODE, Ballots(vs, k - 1));
      RunOfBallots(vs, k - 1);
      OneMoreVote(vs, n, k - 1);
      RunTwo(vs, TRUSTING, FRESH_NODE, Ballots(vs, k - 1), Receive(Witness(0, 0, vs[k - 1], 1)), Process(0));
    }
  }

  /** With 2, 3, 4, 6 or 8 validators the same digest of one event can be proved twice by one node. */
  lemma TwoProofsPossible(vs: seq<AuthorityId>)
    requires Distinct(vs) && !(|vs| <= 1 || |vs| == 5 || |vs| == 7 || |vs| >= 9)
    ensures exists inputs: seq<Input> {:trigger Run(vs, TRUSTING, FRESH_NODE, inputs)} ::
      && OwnVotesSigned(vs, TRUSTING, inputs)
      && |ProofsFor(Run(vs, TRUSTING, FRESH_NODE, inputs).proofs, 0)| == 2
  {
    OneProofSizes(|vs|);
    var k := 2 * Threshold(|vs|);
    RunOfBallots(vs, k);
    NoOwn(vs, k);
    var inputs := Ballots(vs, k);
    assert |ProofsFor(Run(vs, TRUSTING, FRESH_NODE, inputs).proofs, 0)| == 2;
  }

  lemma {:induction false} NoOwn(vs: seq<AuthorityId>, k: nat)
    requires k <= |vs|
    ensures forall i :: 0 <= i < |Ballots(vs, k)| ==> !Ballots(vs, k)[i].Own?
  {
    if k > 0 { NoOwn(vs, k - 1); }
  }
}
