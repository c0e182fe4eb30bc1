/** The Ethereum state oracle: requests, relayed responses, their challenge period, expiry and callbacks. */
module OracleSpec {
  import opened Prelude

  type RequestId = nat
  type Block = nat
  type AccountId = nat

  const U64_MAX: nat := 0xFFFF_FFFF_FFFF_FFFF
  const ETH_BLOCK_TIME_S: nat := 15

  datatype Config = Config(period: Block, bond: nat, maxRequests: nat, maxRelayers: nat)

  /** Challenge periods and bonds are positive. */
  predicate Sensible(c: Config) { 1 <= c.period && 0 < c.bond }

  /** `weightLimit` is the weight of the callback's gas limit. */
  datatype Request = Request(body: nat, weightLimit: nat, timestamp: nat, expiry: Block)

  datatype Response = Response(relayer: AccountId, data: Option<nat>, block: nat, timestamp: nat)

  datatype Error =
    | NoAvailableResponses | NoChallengers
    | AlreadyBonded | MaxRelayersReached | CannotReserve
    | NotEnoughBonded | CantUnbond
    | NoRequest | ResponseExists | InvalidResponseTimestamp
    | ActiveChallenger | DuplicateChallenge | NoResponse

  /** Where a request is in its life. Not stored: a history kept to state that there is one place. */
  datatype Place = Expiring(at: Block) | Contestable(until: Block) | Queued | Lapsed | CalledBack

  datatype Oracle = Oracle(
    now: Block,
    nextId: RequestId,
    requests: map<RequestId, Request>,
    responses: map<RequestId, Response>,
    validAt: map<Block, seq<RequestId>>,
    expiredAt: map<Block, seq<RequestId>>,
    callbacks: seq<RequestId>,
    relayers: map<AccountId, nat>,
    challengers: map<AccountId, nat>,
    challenged: map<RequestId, AccountId>,
    thisBlock: nat,
    drift: nat,
    place: map<RequestId, Place>,
    ran: seq<RequestId>)
  {
    function Bond(who: AccountId): nat { Get(relayers, who, 0) }

    function ValidAt(b: Block): seq<RequestId> { Get(validAt, b, []) }

    function ExpiredAt(b: Block): seq<RequestId> { Get(expiredAt, b, []) }
  }

  function SatU64(a: nat, b: nat): nat { Min(a + b, U64_MAX) }

  function Elements<T>(s: seq<T>): set<T> { set x | x in s }

  /** The places of `ids` become `p`. */
  function Move(place: map<RequestId, Place>, ids: seq<RequestId>, p: Place): map<RequestId, Place> {
    map id | id in place :: if id in ids then p else place[id]
  }

  /** At block `b`: queue the responses that went unchallenged, and drop the requests nobody answered. */
  function Arrive(s: Oracle, b: Block): Oracle {
    s.(now := b, thisBlock := 0,
       callbacks := s.callbacks + s.ValidAt(b), validAt := s.validAt - {b},
       requests := s.requests - Elements(s.ExpiredAt(b)), expiredAt := s.expiredAt - {b},
       place := Move(Move(s.place, s.ValidAt(b), Queued), s.ExpiredAt(b), Lapsed))
  }

  /** `on_initialize` of the next block. */
  function NextBlock(s: Oracle): Oracle { Arrive(s, s.now + 1) }

  /** `new_request` */
  function Ask(s: Oracle, c: Config, body: nat, weightLimit: nat, timestamp: nat): Result<Oracle, Error> {
    if s.thisBlock >= c.maxRequests then Err(NoAvailableResponses)
    else if s.challengers == map[] then Err(NoChallengers)
    else
      var (id, b) := (s.nextId, s.now + c.period);
      Ok(s.(nextId := id + 1, thisBlock := s.thisBlock + 1,
            requests := s.requests[id := Request(body, weightLimit, timestamp, b)],
            expiredAt := s.expiredAt[b := s.ExpiredAt(b) + [id]],
            place := s.place[id := Expiring(b)]))
  }

  /** `bond_relayer`, which may fail to reserve the bond. */
  function Enrol(s: Oracle, c: Config, who: AccountId, canReserve: bool): Result<Oracle, Error> {
    if s.Bond(who) != 0 then Err(AlreadyBonded)
    else if |s.relayers| >= c.maxRelayers then Err(MaxRelayersReached)
    else if !canReserve then Err(CannotReserve)
    else Ok(s.(relayers := s.relayers[who := c.bond]))
  }

  /** `unbond_relayer` */
  function Resign(s: Oracle, who: AccountId): Result<Oracle, Error> {
    if s.Bond(who) == 0 then Err(NotEnoughBonded)
    else if exists id :: id in s.responses && s.responses[id].relayer == who then Err(CantUnbond)
    else Ok(s.(relayers := s.relayers - {who}))
  }

  predicate Timely(s: Oracle, r: Request, timestamp: nat) {
    SatSub(r.timestamp, ETH_BLOCK_TIME_S * s.drift) <= timestamp <= SatU64(r.timestamp, ETH_BLOCK_TIME_S * s.drift)
  }

  function Without(ids: seq<RequestId>, id: RequestId): seq<RequestId> {
    if ids == [] then []
    else if ids[0] == id then Without(ids[1..], id)
    else [ids[0]] + Without(ids[1..], id)
  }

  /** Store a response, contestable for the challenge period; its request no longer expires. */
  function Accept(s: Oracle, c: Config, id: RequestId, r: Response): Oracle
    requires id in s.requests
  {
    var (b, e) := (s.now + c.period, s.requests[id].expiry);
    s.(responses := s.responses[id := r],
       validAt := s.validAt[b := s.ValidAt(b) + [id]],
       expiredAt := s.expiredAt[e := Without(s.ExpiredAt(e), id)],
       place := s.place[id := Contestable(b)])
  }

  /** `submit_call_response` */
  function Respond(s: Oracle, c: Config, id: RequestId, r: Response): Result<Oracle, Error> {
    if s.Bond(r.relayer) < c.bond then Err(NotEnoughBonded)
    else if id !in s.requests then Err(NoRequest)
    else if id in s.responses then Err(ResponseExists)
    else if !Timely(s, s.requests[id], r.timestamp) then Err(InvalidResponseTimestamp)
    else Ok(Accept(s, c, id, r))
  }

  // ---- Challenges ----

  /** `bond_challenger`, which may fail to reserve the bond. */
  function EnrolChallenger(s: Oracle, c: Config, who: AccountId, canReserve: bool): Result<Oracle, Error> {
    if Get(s.challengers, who, 0) != 0 then Err(AlreadyBonded)
    else if !canReserve then Err(CannotReserve)
    else Ok(s.(challengers := s.challengers[who := c.bond]))
  }

  /** `unbond_challenger` */
  function ResignChallenger(s: Oracle, who: AccountId): Result<Oracle, Error> {
    if Get(s.challengers, who, 0) == 0 then Err(NotEnoughBonded)
    else if exists id :: id in s.challenged && s.challenged[id] == who then Err(ActiveChallenger)
    else Ok(s.(challengers := s.challengers - {who}))
  }

  /** `submit_response_challenge`, at any time until the callback has run. */
  function Challenge(s: Oracle, c: Config, who: AccountId, id: RequestId): Result<Oracle, Error> {
    if id !in s.requests then Err(NoRequest)
    else if id in s.challenged then Err(DuplicateChallenge)
    else if Get(s.challengers, who, 0) < c.bond then Err(NotEnoughBonded)
    else if id !in s.responses then Err(NoResponse)
    else Ok(s.(challenged := s.challenged[id := who]))
  }

  // ---- Callbacks ----

  /** A request made by the contract that is being called back. */
  datatype Nested = Nested(body: nat, weightLimit: nat, timestamp: nat)

  /** What running a callback did: the weight it took, and the requests it made. */
  datatype Effect = Effect(weight: nat, asked: seq<Nested>)

  function AskAll(s: Oracle, c: Config, asked: seq<Nested>): Oracle
    decreases |asked|
  {
    if asked == [] then s
    else
      var r := Ask(s, c, asked[0].body, asked[0].weightLimit, asked[0].timestamp);
      AskAll(if r.Ok? then r.value else s, c, asked[1..])
  }

  /** Drop a request with its response and run its callback. */
  function CallBack(s: Oracle, c: Config, id: RequestId, asked: seq<Nested>): Oracle {
    AskAll(s.(requests := s.requests - {id}, responses := s.responses - {id},
              place := s.place[id := CalledBack], ran := s.ran + [id]), c, asked)
  }

  /** `ok` is false if a request or response that had to be there was missing. */
  datatype Progress = Progress(s: Oracle, processed: nat, consumed: nat, ok: bool)

  /** The loop of `on_idle` over the queued callbacks, until the weight runs out. Challenged ones are passed
      over and not counted. */
  function CallBacks(s: Oracle, c: Config, ids: seq<RequestId>, consumed: nat, remaining: nat, each: nat,
                     effects: map<RequestId, Effect>): (p: Progress)
    ensures p.processed <= |ids|
    decreases |ids|
  {
    if ids == [] then Progress(s, 0, consumed, true)
    else if ids[0] in s.challenged then CallBacks(s, c, ids[1..], consumed, remaining, each, effects)
    else if ids[0] !in s.requests then Progress(s, 0, consumed, false)
    else if SatU64(SatU64(consumed, each), s.requests[ids[0]].weightLimit) > remaining then
      Progress(s, 0, consumed, true)
    else if ids[0] !in s.responses then Progress(s, 0, consumed, false)
    else
      var e := Get(effects, ids[0], Effect(0, []));
      var p := CallBacks(CallBack(s, c, ids[0], e.asked), c, ids[1..], SatU64(SatU64(consumed, each), e.weight),
                         remaining, each, effects);
      Progress(p.s, p.processed + 1, p.consumed, p.ok)
  }

  /** `on_idle`: run callbacks, and drop as many ids from the front of the queue as ran. A block in which it
      fails is not produced. */
  function Idle(s: Oracle, c: Config, base: nat, remaining: nat, each: nat, effects: map<RequestId, Effect>): Oracle {
    if s.callbacks == [] then s
    else
      var p := CallBacks(s, c, s.callbacks, base, remaining, each, effects);
      if p.ok then p.s.(callbacks := s.callbacks[p.processed..]) else s
  }

  // ---- Runs ----

  datatype Event =
    | Tick
    | NewRequest(body: nat, weightLimit: nat, timestamp: nat)
    | BondRelayer(who: AccountId, canReserve: bool)
    | UnbondRelayer(who: AccountId)
    | SubmitResponse(id: RequestId, response: Response)
    | IdleTime(base: nat, remaining: nat, each: nat, effects: map<RequestId, Effect>)
    | BondChallenger(who: AccountId, canReserve: bool)
    | UnbondChallenger(who: AccountId)
    | ChallengeResponse(who: AccountId, id: RequestId)
    | SetDrift(n: nat)

  function OrElse(r: Result<Oracle, Error>, s: Oracle): Oracle { if r.Ok? then r.value else s }

  function Step(s: Oracle, c: Config, e: Event): Oracle {
    match e
    case Tick => NextBlock(s)
    case NewRequest(body, limit, time) => OrElse(Ask(s, c, body, limit, time), s)
    case BondRelayer(who, can) => OrElse(Enrol(s, c, who, can), s)
    case UnbondRelayer(who) => OrElse(Resign(s, who), s)
    case SubmitResponse(id, r) => OrElse(Respond(s, c, id, r), s)
    case IdleTime(base, remaining, each, effects) => Idle(s, c, base, remaining, each, effects)
    case BondChallenger(who, can) => OrElse(EnrolChallenger(s, c, who, can), s)
    case UnbondChallenger(who) => OrElse(ResignChallenger(s, who), s)
    case ChallengeResponse(who, id) => OrElse(Challenge(s, c, who, id), s)
    case SetDrift(n) => s.(drift := n)
  }

  function Run(s: Oracle, c: Config, es: seq<Event>): Oracle
    decreases |es|
  {
    if es == [] then s else Run(Step(s, c, es[0]), c, es[1..])
  }

  function Start(now: Block, drift: nat): Oracle {
    Oracle(now, 0, map[], map[], map[], map[], [], map[], map[], map[], 0, drift, map[], [])
  }
}
