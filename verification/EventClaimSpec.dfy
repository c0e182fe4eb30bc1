/** Claims that an event happened on Ethereum: submitted, voted on by notaries, and remembered by
    transaction hash until a bucket of hashes is pruned. */
module EventClaimSpec {
  import opened Prelude
  import opened EthThreshold

  type ClaimId = nat
  type TypeId = nat
  type Hash = nat
  type Notary = nat
  type EventType = (nat, nat)

  /** Deadlines are positive: hashes are filed modulo the deadline. */
  type Seconds = x: nat | 0 < x witness 1

  /** Bucket width in seconds. */
  const BUCKET_FACTOR_S: nat := 3600

  datatype Verdict =
    | Valid
    | DataProviderErr
    | TxStatusFailed
    | UnexpectedContractAddress
    | NoTxLogs
    | NotEnoughConfirmations
    | UnexpectedData
    | Expired

  datatype Error = AlreadyNotarized | DuplicateClaim | InvalidClaim

  /** A claim as it was submitted, and as its subscribers hear about it. */
  datatype Claim = Claim(kind: EventType, hash: Hash, data: seq<nat>)

  datatype Told = Told(id: ClaimId, success: bool, kind: EventType, data: seq<nat>)

  /** `told` and `submitted` are histories. */
  datatype Claims = Claims(
    nextId: ClaimId,
    nextType: TypeId,
    typeIds: map<EventType, TypeId>,
    types: map<TypeId, EventType>,
    claims: map<ClaimId, (Hash, TypeId)>,
    data: map<ClaimId, seq<nat>>,
    votes: map<ClaimId, map<Notary, Verdict>>,
    pending: map<Hash, ClaimId>,
    processed: set<Hash>,
    buckets: set<(nat, Hash)>,
    deadline: Seconds,
    told: seq<Told>,
    submitted: map<ClaimId, Claim>)
  {
    function Votes(id: ClaimId): map<Notary, Verdict> { Get(votes, id, map[]) }
  }

  /** Store a new claim under the next id, and a new type id for a new event type. */
  function Enter(s: Claims, c: Claim): Claims {
    var known := c.kind in s.typeIds;
    var t := if known then s.typeIds[c.kind] else s.nextType;
    s.(nextId := s.nextId + 1,
       nextType := if known then s.nextType else s.nextType + 1,
       typeIds := s.typeIds[c.kind := t],
       types := if known then s.types else s.types[t := c.kind],
       claims := s.claims[s.nextId := (c.hash, t)],
       data := s.data[s.nextId := c.data],
       pending := s.pending[c.hash := s.nextId],
       submitted := s.submitted[s.nextId := c])
  }

  /** `submit_event_claim` */
  function Submit(s: Claims, c: Claim): Result<Claims, Error> {
    if c.hash in s.processed then Err(AlreadyNotarized)
    else if c.hash in s.pending then Err(DuplicateClaim)
    else Ok(Enter(s, c))
  }

  function Yays(votes: map<Notary, Verdict>): nat { |Voters(votes, Valid)| }

  function Against(votes: map<Notary, Verdict>): set<Notary> { set k | k in votes && votes[k] != Valid }

  /** Everyone who did not vote `Valid`. */
  function Nays(votes: map<Notary, Verdict>): nat { |Against(votes)| }

  predicate Rejected(votes: map<Notary, Verdict>, n: nat) { Percent(Nays(votes), n) > 100 - THRESHOLD }

  predicate Approved(votes: map<Notary, Verdict>, n: nat) { Reaches(Yays(votes), n) }

  /** The bucket a hash verified at `now` is filed under. */
  function FiledUnder(now: nat, deadline: Seconds): nat
  {
    (now + deadline) % deadline / BUCKET_FACTOR_S
  }

  /** The bucket a prune at `now` empties. */
  function PrunedBucket(now: nat, deadline: Seconds): nat
  {
    now % deadline / BUCKET_FACTOR_S
  }

  /** Drop the claim and tell its subscribers. */
  function Close(s: Claims, id: ClaimId, success: bool): Claims
    requires id in s.claims && id in s.data
  {
    var (hash, t) := s.claims[id];
    s.(claims := s.claims - {id},
       data := s.data - {id},
       votes := s.votes - {id},
       pending := s.pending - {hash},
       told := s.told + [Told(id, success, Get(s.types, t, (0, 0)), s.data[id])])
  }

  /** Remember a verified hash. */
  function Note(s: Claims, hash: Hash, bucket: nat): Claims {
    s.(processed := s.processed + {hash}, buckets := s.buckets + {(bucket, hash)})
  }

  function Approve(s: Claims, id: ClaimId, now: nat): Claims
    requires id in s.claims && id in s.data
  {
    Note(Close(s, id, true), s.claims[id].0, FiledUnder(now, s.deadline))
  }

  /** `handle_event_notarization`. A failure rolls back the whole call. */
  function Notarize(s: Claims, id: ClaimId, verdict: Verdict, notary: Notary, n: nat, now: nat): Result<Claims, Error>
  {
    if id !in s.claims then Err(InvalidClaim)
    else
      var votes := s.Votes(id)[notary := verdict];
      if Rejected(votes, n) then
        if id !in s.data then Err(InvalidClaim) else Ok(Close(s, id, false))
      else if Approved(votes, n) then
        if id !in s.data then Err(InvalidClaim)
        else Ok(Approve(s, id, now))
      else Ok(s.(votes := s.votes[id := votes]))
  }

  /** The pruning half of `on_initialize`. */
  function Prune(s: Claims, now: nat): Claims
  {
    var b := PrunedBucket(now, s.deadline);
    s.(processed := (set h | h in s.processed && (b, h) !in s.buckets),
       buckets := (set e | e in s.buckets && e.0 != b))
  }

  // ---- Runs ----

  datatype Event =
    | SubmitClaim(claim: Claim)
    | Vote(id: ClaimId, verdict: Verdict, notary: Notary, now: nat)
    | PruneAt(now: nat)
    | SetDeadline(seconds: Seconds)

  /** Only notaries vote. */
  predicate Enabled(notaries: set<Notary>, es: seq<Event>) {
    forall i :: 0 <= i < |es| && es[i].Vote? ==> es[i].notary in notaries
  }

  /** The check of `validate_unsigned` on a vote with the given number: no stored event vote has that
      number and notary. */
  predicate Admits(s: Claims, id: nat, notary: Notary) { notary !in s.Votes(id) }

  function Step(s: Claims, n: nat, e: Event): Claims
  {
    match e
    case SubmitClaim(c) => var r := Submit(s, c); if r.Ok? then r.value else s
    case Vote(id, v, notary, now) =>
      var r := Notarize(s, id, v, notary, n, now);
      if Admits(s, id, notary) && r.Ok? then r.value else s
    case PruneAt(now) => Prune(s, now)
    case SetDeadline(seconds) => s.(deadline := seconds)
  }

  function Run(s: Claims, n: nat, es: seq<Event>): Claims
    decreases |es|
  {
    if es == [] then s else Run(Step(s, n, es[0]), n, es[1..])
  }

  function Start(deadline: Seconds): Claims {
    Claims(0, 0, map[], map[], map[], map[], map[], map[], {}, {}, deadline, [], map[])
  }
}
