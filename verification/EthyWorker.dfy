/** The ethy worker's mutable state: vote record, gossip validator and worker. */
module EthyWorker {
  import opened Prelude
  import opened EthySpec

  lemma {:induction false} LowerBoundUnique(v: seq<nat>, x: nat, i: nat)
    requires i <= |v|
    requires forall j :: 0 <= j < i ==> v[j] < x
    requires forall j :: i <= j < |v| ==> x <= v[j]
    ensures LowerBound(v, x) == i
  {
    if i > 0 { LowerBoundUnique(v[1..], x, i - 1); }
  }

  /** Binary search on a sorted vector: whether `x` is there, and where it is or would go. */
  method BinarySearch(v: seq<nat>, x: nat) returns (found: bool, i: nat)
    requires Sorted(v)
    ensures found <==> x in v
    ensures i == LowerBound(v, x)
  {
    var lo, hi := 0, |v|;
    while lo < hi
      invariant 0 <= lo <= hi <= |v|
      invariant forall j :: 0 <= j < lo ==> v[j] < x
      invariant forall j :: hi <= j < |v| ==> x <= v[j]
    {
      var mid := (lo + hi) / 2;
      if v[mid] < x { lo := mid + 1; } else { hi := mid; }
    }
    i := lo;
    LowerBoundUnique(v, x, i);
    found := i < |v| && v[i] == x;
  }

  /** Insertion at the place binary search reports. */
  method InsertAt(v: seq<nat>, x: nat) returns (r: seq<nat>)
    requires Sorted(v) && x !in v
    ensures r == Insert(v, x) && Sorted(r) && |r| == |v| + 1
  {
    var _, place := BinarySearch(v, x);
    LowerBoundPlace(v, x);
    InsertSorted(v, x);
    r := v[..place] + [x] + v[place..];
  }

  class WitnessRecord {
    var record: map<EventId, map<Digest, seq<Vote>>>
    var hasVoted: map<EventId, seq<AuthorityId>>
    const validators: seq<AuthorityId>

    ghost predicate Valid()
      reads this
    {
      && (forall e :: e in hasVoted ==> Sorted(hasVoted[e]))
      && record.Keys <= hasVoted.Keys
      && VotesIndexed()
    }

    ghost predicate VotesIndexed()
      reads this
    {
      forall e, d, v :: e in record && d in record[e] && v in record[e][d] ==> v.index < |validators|
    }

    function BallotAt(e: EventId): Ballot
      reads this
    {
      Ballot(Get(hasVoted, e, []), Get(record, e, map[]))
    }

    constructor (vs: seq<AuthorityId>)
      ensures Valid() && validators == vs && record == map[] && hasVoted == map[]
    {
      record, hasVoted, validators := map[], map[], vs;
    }

    method PositionOf(a: AuthorityId) returns (i: nat)
      ensures i == Position(validators, a) <= |validators|
      ensures i < |validators| <==> a in validators
    {
      i := 0;
      while i < |validators| && validators[i] != a
        invariant i <= |validators|
        invariant a !in validators[..i]
        invariant Position(validators, a) == i + Position(validators[i..], a)
      {
        assert validators[i..][1..] == validators[i + 1..];
        assert validators[..i + 1] == validators[..i] + [validators[i]];
        i := i + 1;
      }
      assert validators == validators[..i] + validators[i..];
    }

    /** Add a validator's vote under its event and digest; other keys are not counted. */
    method RecordVote(w: Witness)
      requires VotesIndexed()
      modifies this`record
      ensures VotesIndexed()
      ensures record == old(record)[w.eventId := Note(validators, Ballot([], old(BallotAt(w.eventId)).tally), w).tally]
    {
      var e := w.eventId;
      var index := PositionOf(w.authority);
      var digests := Get(record, e, map[]);
      if index < |validators| {
        ghost var before := digests;
        digests := digests[w.digest := Get(digests, w.digest, []) + [Vote(index, w.signature)]];
        forall d, v | d in digests && v in digests[d] ensures v.index < |validators| {
          assert v.index == index || (d in before && v in before[d]);
        }
      }
      record := record[e := digests];
    }

    /** Note a witness if its authority has not been seen on this event. */
    method NoteWitness(w: Witness) returns (noted: bool)
      requires Valid()
      modifies this
      ensures Valid()
      ensures noted <==> w.authority !in old(BallotAt(w.eventId)).voted
      ensures BallotAt(w.eventId) == Note(validators, old(BallotAt(w.eventId)), w)
      ensures forall f :: f != w.eventId ==> BallotAt(f) == old(BallotAt(f))
    {
      var e := w.eventId;
      var votes := Get(hasVoted, e, []);
      var seen, _ := BinarySearch(votes, w.authority);
      noted := !seen;
      if noted {
        RecordVote(w);
        var more := InsertAt(votes, w.authority);
        hasVoted := hasVoted[e := more];
      }
    }

    method HasConsensus(e: EventId, d: Digest, threshold: nat) returns (r: bool)
      ensures r <==> |VotesFor(BallotAt(e), d)| >= threshold
    {
      var count := 0;
      if e in record && d in record[e] { count := |record[e][d]|; }
      r := count >= threshold;
    }

    /** One slot per validator, filled from the recorded votes. */
    method SignaturesFor(e: EventId, d: Digest) returns (signatures: seq<Signature>)
      requires Valid() && e in record && d in record[e]
      ensures signatures == Slots(|validators|, VotesFor(BallotAt(e), d))
    {
      var votes := record[e][d];
      signatures := seq(|validators|, _ => NO_SIGNATURE);
      for i := 0 to |votes|
        invariant signatures == Slots(|validators|, votes[..i])
      {
        assert votes[..i + 1][..i] == votes[..i];
        assert votes[i] in votes;
        signatures := signatures[votes[i].index := votes[i].signature];
      }
      assert votes[..|votes|] == votes;
    }

    method Clear(e: EventId)
      requires Valid()
      modifies this`record
      ensures Valid()
      ensures BallotAt(e) == Ballot(old(BallotAt(e)).voted, map[])
      ensures forall f :: f != e ==> BallotAt(f) == old(BallotAt(f))
    {
      record := record - {e};
    }
  }

  class GossipValidator {
    var known: map<EventId, seq<AuthorityId>>
    var complete: seq<EventId>
    const validators: seq<AuthorityId>

    ghost predicate Valid()
      reads this
    {
      && (forall e :: e in known ==> Sorted(known[e]))
      && Sorted(complete) && |complete| <= MAX_COMPLETE_EVENT_CACHE + 1
    }

    constructor (vs: seq<AuthorityId>)
      ensures Valid() && known == map[] && complete == [] && validators == vs
    {
      known, complete, validators := map[], [], vs;
    }

    /** Keep a witness exactly when it is new, from an active validator and correctly signed. */
    method ValidateWitness(verify: Verifier, w: Witness) returns (keep: bool)
      requires Valid()
      modifies this`known
      ensures Valid()
      ensures keep <==> Accepts(validators, verify, Node(map[], old(known), [], [], []), w)
      ensures known ==
        Validate(validators, verify, Node(map[], old(known), [], [], []), w).known
    {
      var maybeKnown := Get(known, w.eventId, []);
      var seen, _ := BinarySearch(maybeKnown, w.authority);
      keep := !seen && w.authority in validators && verify(w.authority, w.signature, w.digest);
      if keep {
        var more := InsertAt(maybeKnown, w.authority);
        known := known[w.eventId := more];
      }
    }

    method Finish(e: EventId)
      requires Valid()
      modifies this
      ensures Valid()
      ensures known == old(known) - {e}
      ensures complete == MarkComplete(old(complete), e)
    {
      known := known - {e};
      if |complete| > MAX_COMPLETE_EVENT_CACHE { complete := complete[1..]; }
      var found, _ := BinarySearch(complete, e);
      if !found {
        complete := InsertAt(complete, e);
      }
    }
  }

  /** A digest with threshold support has a vote on record. */
  lemma SupportedDigest(vs: seq<AuthorityId>, b: Ballot, w: Witness)
    requires w.authority !in b.voted && (w.authority in vs || 2 <= |vs|) && Reached(vs, Note(vs, b, w), w.digest)
    ensures w.digest in Note(vs, b, w).tally && VotesFor(Note(vs, b, w), w.digest) != []
  {
    assert 2 <= |vs| ==> 1 <= Threshold(|vs|);
  }

  class Worker {
    const record: WitnessRecord
    const gossip: GossipValidator
    const validators: seq<AuthorityId>
    var proofs: seq<Proof>
    /** The node as the specification sees it; the queue of accepted witnesses is outside. */
    ghost var node: Node

    ghost predicate Valid()
      reads this, record, gossip
    {
      && record.Valid() && gossip.Valid() && record.validators == gossip.validators == validators
      && node == Node(node.ballots, gossip.known, gossip.complete, [], proofs)
      && (forall e :: node.BallotOf(e) == record.BallotAt(e))
    }

    constructor (vs: seq<AuthorityId>)
      ensures Valid() && fresh(record) && fresh(gossip) && validators == vs && node == FRESH_NODE
    {
      record := new WitnessRecord(vs);
      gossip := new GossipValidator(vs);
      validators := vs;
      proofs := [];
      node := FRESH_NODE;
    }

    /** Note the witness and, once its digest has threshold support, publish a proof. A key outside
        the validator set is noted but not counted; with fewer than two validators the threshold is
        zero, and assembling a proof of no votes would fail. */
    method Handle(w: Witness)
      requires Valid() && (w.authority in validators || 2 <= |validators|)
      modifies this`proofs, this`node, record, gossip
      ensures Valid()
      ensures node == HandleWitness(validators, old(node), w)
    {
      ghost var ballot := record.BallotAt(w.eventId);
      assert node.BallotOf(w.eventId) == ballot;
      var first := record.NoteWitness(w);
      if first {
        ghost var noted := record.BallotAt(w.eventId);
        var reached := record.HasConsensus(w.eventId, w.digest, Threshold(|validators|));
        if reached {
          SupportedDigest(validators, ballot, w);
          Publish(w);
          node := Node(node.ballots[w.eventId := Ballot(noted.voted, map[])], gossip.known, gossip.complete, [],
                       proofs);
        } else {
          node := node.(ballots := node.ballots[w.eventId := noted]);
        }
      }
    }

    /** Assemble and send the proof, then forget the counted votes and mark the event complete. */
    method Publish(w: Witness)
      requires record.Valid() && gossip.Valid() && record.validators == validators
      requires w.eventId in record.record && w.digest in record.record[w.eventId]
      modifies this`proofs, record, gossip
      ensures record.Valid() && gossip.Valid()
      ensures
        var votes := VotesFor(old(record.BallotAt(w.eventId)), w.digest);
        proofs == old(proofs) + [Proof(w.eventId, w.digest, votes, Slots(|validators|, votes))]
      ensures record.BallotAt(w.eventId) == Ballot(old(record.BallotAt(w.eventId)).voted, map[])
      ensures forall f :: f != w.eventId ==> record.BallotAt(f) == old(record.BallotAt(f))
      ensures gossip.known == old(gossip.known) - {w.eventId}
      ensures gossip.complete == MarkComplete(old(gossip.complete), w.eventId)
    {
      var signatures := record.SignaturesFor(w.eventId, w.digest);
      proofs := proofs + [Proof(w.eventId, w.digest, record.record[w.eventId][w.digest], signatures)];
      record.Clear(w.eventId);
      gossip.Finish(w.eventId);
    }
  }
}
