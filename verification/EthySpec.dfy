/** The ethy witness protocol as seen by one node: gossip validation, vote recording, proofs. */
module EthySpec {
  import opened Prelude

  type EventId = nat
  /** ECDSA public keys, ordered as their bytes are. */
  type AuthorityId = nat
  type Digest = nat
  type Signature = nat

  /** Filler for the slots of validators that did not sign. */
  const NO_SIGNATURE: Signature := 0

  /** More than this many completed events are never kept before a new one is added. */
  const MAX_COMPLETE_EVENT_CACHE: nat := 30

  datatype Witness = Witness(digest: Digest, eventId: EventId, authority: AuthorityId, signature: Signature)

  /** Whether a signature over a digest verifies; the cryptography itself is not modelled. */
  type Verifier = (AuthorityId, Signature, Digest) -> bool

  /** A vote as kept in the record: the signer's index in the validator set, and the signature. */
  datatype Vote = Vote(index: nat, signature: Signature)

  /** All that a node keeps about one event. An event absent from the nested map and an event with
      no digests behave alike. */
  datatype Ballot = Ballot(voted: seq<AuthorityId>, tally: map<Digest, seq<Vote>>)

  const EMPTY_BALLOT: Ballot := Ballot([], map[])

  /** A proof sent to the subscribers, with the votes it was assembled from. */
  datatype Proof = Proof(eventId: EventId, digest: Digest, votes: seq<Vote>, signatures: seq<Signature>)

  // ---- Sorted vectors ----

  predicate Sorted(v: seq<nat>) { forall i, j :: 0 <= i < j < |v| ==> v[i] < v[j] }

  /** How many elements come before the place of `x`. */
  function LowerBound(v: seq<nat>, x: nat): nat {
    if v == [] || x <= v[0] then 0 else 1 + LowerBound(v[1..], x)
  }

  function Insert(v: seq<nat>, x: nat): seq<nat> {
    var i := LowerBound(v, x);
    if i <= |v| then v[..i] + [x] + v[i..] else v
  }

  lemma {:induction false} LowerBoundPlace(v: seq<nat>, x: nat)
    requires Sorted(v)
    ensures LowerBound(v, x) <= |v|
    ensures forall i :: 0 <= i < LowerBound(v, x) ==> v[i] < x
    ensures forall i :: LowerBound(v, x) <= i < |v| ==> x <= v[i]
  {
    if v != [] && v[0] < x {
      LowerBoundPlace(v[1..], x);
      forall i | 0 <= i < LowerBound(v, x) ensures v[i] < x {
        if 0 < i { assert v[i] == v[1..][i - 1]; }
      }
      forall i | LowerBound(v, x) <= i < |v| ensures x <= v[i] {
        assert v[i] == v[1..][i - 1];
      }
    }
  }

  lemma InsertSorted(v: seq<nat>, x: nat)
    requires Sorted(v) && x !in v
    ensures Sorted(Insert(v, x)) && |Insert(v, x)| == |v| + 1
    ensures forall y :: y in Insert(v, x) <==> y == x || y in v
  {
    LowerBoundPlace(v, x);
    var i := LowerBound(v, x);
    var r := Insert(v, x);
    forall j, k | 0 <= j < k < |r| ensures r[j] < r[k] {
      assert r[j] == (if j < i then v[j] else if j == i then x else v[j - 1]);
      assert r[k] == (if k < i then v[k] else if k == i then x else v[k - 1]);
    }
    forall y ensures y in r <==> y == x || y in v {
      assert v == v[..i] + v[i..];
    }
  }

  // ---- The vote record ----

  /** Index of the first occurrence of `a`, or the length when there is none. */
  function Position(vs: seq<AuthorityId>, a: AuthorityId): nat {
    if vs == [] || vs[0] == a then 0 else 1 + Position(vs[1..], a)
  }

  function VotesFor(b: Ballot, d: Digest): seq<Vote> { Get(b.tally, d, []) }

  /** Count a vote, if the authority has not voted on this event before. */
  function Note(vs: seq<AuthorityId>, b: Ballot, w: Witness): Ballot {
    if w.authority in b.voted then b
    else Ballot(
      Insert(b.voted, w.authority),
      if w.authority in vs
      then b.tally[w.digest := VotesFor(b, w.digest) + [Vote(Position(vs, w.authority), w.signature)]]
      else b.tally)
  }

  /** `(n as f32 * 0.6) as usize`. */
  function Threshold(n: nat): nat { 3 * n / 5 }

  /** Signature slots, one per validator, with later votes overwriting earlier ones. */
  function Slots(n: nat, votes: seq<Vote>): (r: seq<Signature>)
    ensures |r| == n
  {
    if votes == [] then seq(n, _ => NO_SIGNATURE)
    else
      var (r, v) := (Slots(n, votes[..|votes| - 1]), votes[|votes| - 1]);
      if v.index < n then r[v.index := v.signature] else r
  }

  // ---- A node ----

  datatype Node = Node(
    ballots: map<EventId, Ballot>,
    known: map<EventId, seq<AuthorityId>>,
    complete: seq<EventId>,
    inbox: seq<Witness>,
    proofs: seq<Proof>)
  {
    function BallotOf(e: EventId): Ballot { Get(ballots, e, EMPTY_BALLOT) }
  }

  const FRESH_NODE: Node := Node(map[], map[], [], [], [])

  predicate Accepts(vs: seq<AuthorityId>, verify: Verifier, n: Node, w: Witness) {
    && w.authority !in Get(n.known, w.eventId, [])
    && w.authority in vs
    && verify(w.authority, w.signature, w.digest)
  }

  /** Gossip validation: an accepted witness is remembered and handed to the worker's queue. */
  function Validate(vs: seq<AuthorityId>, verify: Verifier, n: Node, w: Witness): Node {
    if Accepts(vs, verify, n, w) then
      n.(known := n.known[w.eventId := Insert(Get(n.known, w.eventId, []), w.authority)],
         inbox := n.inbox + [w])
    else n
  }

  function Trimmed(complete: seq<EventId>): seq<EventId> {
    if |complete| > MAX_COMPLETE_EVENT_CACHE then complete[1..] else complete
  }

  function MarkComplete(complete: seq<EventId>, e: EventId): seq<EventId> {
    var c := Trimmed(complete);
    if e in c then c else Insert(c, e)
  }

  predicate Reached(vs: seq<AuthorityId>, b: Ballot, d: Digest) { |VotesFor(b, d)| >= Threshold(|vs|) }

  /** Record a witness and, on reaching the threshold, emit a proof and forget the counted votes.
      Which authorities have voted is not forgotten. */
  function HandleWitness(vs: seq<AuthorityId>, n: Node, w: Witness): Node {
    var e := w.eventId;
    if w.authority in n.BallotOf(e).voted then n
    else
      var b := Note(vs, n.BallotOf(e), w);
      if Reached(vs, b, w.digest) then
        var votes := VotesFor(b, w.digest);
        n.(ballots := n.ballots[e := Ballot(b.voted, map[])],
           known := n.known - {e},
           complete := MarkComplete(n.complete, e),
           proofs := n.proofs + [Proof(e, w.digest, votes, Slots(|vs|, votes))])
      else n.(ballots := n.ballots[e := b])
  }

  /** A witness arrives by gossip; the worker takes the k-th queued witness; the worker signs and
      processes a witness of its own. */
  datatype Input = Receive(w: Witness) | Process(k: nat) | Own(w: Witness)

  function Step(vs: seq<AuthorityId>, verify: Verifier, n: Node, i: Input): Node {
    match i
    case Receive(w) => Validate(vs, verify, n, w)
    case Process(k) =>
      if k < |n.inbox| then HandleWitness(vs, n.(inbox := n.inbox[..k] + n.inbox[k + 1..]), n.inbox[k]) else n
    case Own(w) => HandleWitness(vs, n, w)
  }

  function Run(vs: seq<AuthorityId>, verify: Verifier, n: Node, inputs: seq<Input>): Node
    decreases |inputs|
  {
    if inputs == [] then n
    else Step(vs, verify, Run(vs, verify, n, inputs[..|inputs| - 1]), inputs[|inputs| - 1])
  }

  /** The node votes only with a key of the validator set, and signs what it votes for. */
  predicate OwnVotesSigned(vs: seq<AuthorityId>, verify: Verifier, inputs: seq<Input>) {
    forall i :: 0 <= i < |inputs| && inputs[i].Own? ==>
      inputs[i].w.authority in vs && verify(inputs[i].w.authority, inputs[i].w.signature, inputs[i].w.digest)
  }
}
