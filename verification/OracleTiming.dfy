/** How long things last in the state oracle: a request lives and a response is contestable for exactly the
    challenge period, counted in blocks. */
module OracleTiming {
  import opened Prelude
  import opened OracleSpec
  import opened OracleSafety

  function Ticks(es: seq<Event>): nat
    decreases |es|
  {
    if es == [] then 0 else (if es[0].Tick? then 1 else 0) + Ticks(es[1..])
  }

  // ---- Acceptance ----

  /** A response is accepted if and only if its relayer is bonded, the request is open and unanswered, and its time
      differs from that of the request by at most fifteen seconds for each block of tolerated drift. */
  lemma RespondAnswer(s: Oracle, c: Config, id: RequestId, r: Response)
    requires r.timestamp <= U64_MAX
    ensures Respond(s, c, id, r).Ok? <==>
      && s.Bond(r.relayer) >= c.bond && id in s.requests && id !in s.responses
      && s.requests[id].timestamp <= r.timestamp + 15 * s.drift
      && r.timestamp <= s.requests[id].timestamp + 15 * s.drift
  {
  }

  /** A request is accepted if and only if this block still takes one and somebody is bonded to challenge. */
  lemma AskAnswer(s: Oracle, c: Config, n: Nested)
    ensures Ask(s, c, n.body, n.weightLimit, n.timestamp).Ok? <==> s.thisBlock < c.maxRequests && s.challengers != map[]
  {
  }

  /** Bonding a relayer and unbonding it at once succeeds and leaves everything as it was. */
  lemma RelayerRoundTrip(s: Oracle, c: Config, who: AccountId)
    requires BondsOk(s.responses, s.relayers, c.bond) && Sensible(c) && who !in s.relayers
    requires |s.relayers| < c.maxRelayers
    ensures
      var r := Enrol(s, c, who, true);
      r.Ok? && r.value.Bond(who) == c.bond && Resign(r.value, who) == Ok(s)
  {
    var t := Enrol(s, c, who, true).value;
    assert forall id :: id in s.responses ==> s.responses[id].relayer != who;
    assert t == s.(relayers := s.relayers[who := c.bond]) && t.relayers - {who} == s.relayers;
  }

  /** The same for a challenger. */
  lemma ChallengerRoundTrip(s: Oracle, c: Config, who: AccountId)
    requires ChallengesOk(s.challenged, s.responses, s.challengers, c.bond) && Sensible(c) && who !in s.challengers
    ensures
      var r := EnrolChallenger(s, c, who, true);
      r.Ok? && Get(r.value.challengers, who, 0) == c.bond && ResignChallenger(r.value, who) == Ok(s)
  {
    var t := EnrolChallenger(s, c, who, true).value;
    assert forall id :: id in s.challenged ==> s.challenged[id] != who;
    assert t == s.(challengers := s.challengers[who := c.bond]) && t.challengers - {who} == s.challengers;
  }

  // ---- One request through one step ----

  /** What is known of request `id` is the same in `t`. */
  predicate Same(s: Oracle, t: Oracle, id: RequestId) {
    && (id in t.place <==> id in s.place) && (id in s.place ==> t.place[id] == s.place[id])
    && (id in t.requests <==> id in s.requests) && (id in s.requests ==> t.requests[id] == s.requests[id])
    && (id in t.responses <==> id in s.responses) && (id in s.responses ==> t.responses[id] == s.responses[id])
    && s.nextId <= t.nextId && t.now == s.now
  }

  lemma {:induction false} NowKept(s: Oracle, c: Config, asked: seq<Nested>)
    ensures AskAll(s, c, asked).now == s.now
    decreases |asked|
  {
    if asked != [] {
      NowKept(OrElse(Ask(s, c, asked[0].body, asked[0].weightLimit, asked[0].timestamp), s), c, asked[1..]);
    }
  }

  lemma CallBackElsewhere(s: Oracle, c: Config, x: RequestId, asked: seq<Nested>, id: RequestId)
    requires id < s.nextId && x != id
    ensures Same(s, CallBack(s, c, x, asked), id)
  {
    AskAllOld(Leave(s, x), c, asked, id);
    AskAllFrame(Leave(s, x), c, asked);
    NowKept(Leave(s, x), c, asked);
  }

  lemma {:induction false} CallBacksElsewhere(s: Oracle, c: Config, ids: seq<RequestId>, consumed: nat,
                                              remaining: nat, each: nat, effects: map<RequestId, Effect>,
                                              id: RequestId)
    requires id < s.nextId && id !in ids
    ensures Same(s, CallBacks(s, c, ids, consumed, remaining, each, effects).s, id)
    decreases |ids|
  {
    if ids != [] {
      if ids[0] in s.challenged {
        CallBacksElsewhere(s, c, ids[1..], consumed, remaining, each, effects, id);
      } else {
        var e := Get(effects, ids[0], Effect(0, []));
        CallBackElsewhere(s, c, ids[0], e.asked, id);
        CallBacksElsewhere(CallBack(s, c, ids[0], e.asked), c, ids[1..], SatU64(SatU64(consumed, each), e.weight),
                           remaining, each, effects, id);
      }
    }
  }

  lemma AskSame(s: Oracle, c: Config, n: Nested, id: RequestId)
    requires id < s.nextId
    ensures Same(s, OrElse(Ask(s, c, n.body, n.weightLimit, n.timestamp), s), id)
  {
  }

  lemma AcceptSame(s: Oracle, c: Config, x: RequestId, r: Response, id: RequestId)
    requires x in s.requests && x != id
    ensures Same(s, Accept(s, c, x, r), id)
  {
  }

  lemma OthersSame(s: Oracle, c: Config, e: Event, id: RequestId)
    requires !e.Tick? && !e.NewRequest? && !e.SubmitResponse? && !e.IdleTime?
    ensures Same(s, Step(s, c, e), id)
  {
    OthersShape(s, c, e);
  }

  /** The other operations touch bonds, challenges and the drift only. */
  lemma OthersShape(s: Oracle, c: Config, e: Event)
    requires !e.Tick? && !e.NewRequest? && !e.SubmitResponse? && !e.IdleTime?
    ensures
      var t := Step(s, c, e);
      t == s.(relayers := t.relayers, challengers := t.challengers, challenged := t.challenged, drift := t.drift)
  {
    match e
    case BondRelayer(who, can) =>
    case UnbondRelayer(who) =>
    case BondChallenger(who, can) =>
    case UnbondChallenger(who) =>
    case ChallengeResponse(who, x) =>
    case SetDrift(n) =>
  }

  /** Apart from new blocks and callbacks, only a response of its own touches a request. */
  lemma StepSame(s: Oracle, c: Config, e: Event, id: RequestId)
    requires id < s.nextId && !e.Tick? && !e.IdleTime?
    requires e.SubmitResponse? ==> e.id != id || id !in s.requests || id in s.responses
    ensures Same(s, Step(s, c, e), id)
  {
    match e
    case NewRequest(body, limit, time) => AskSame(s, c, Nested(body, limit, time), id);
    case SubmitResponse(x, r) => if Respond(s, c, x, r).Ok? { AcceptSame(s, c, x, r, id); }
    case _ => OthersSame(s, c, e, id);
  }

  lemma IdleSame(s: Oracle, c: Config, base: nat, remaining: nat, each: nat, effects: map<RequestId, Effect>,
                 id: RequestId)
    requires id < s.nextId && id !in s.callbacks
    ensures Same(s, Idle(s, c, base, remaining, each, effects), id)
  {
    CallBacksElsewhere(s, c, s.callbacks, base, remaining, each, effects, id);
  }

  /** Nothing but a new block or a response moves a request that was not queued. */
  lemma UnqueuedKept(s: Oracle, c: Config, e: Event, id: RequestId)
    requires Inv(s, c) && id in s.place && !s.place[id].Queued? && !s.place[id].CalledBack?
    requires !e.Tick? && (e.SubmitResponse? ==> e.id != id || id !in s.requests || id in s.responses)
    ensures Same(s, Step(s, c, e), id)
  {
    assert id < s.nextId && id !in s.callbacks;
    if e.IdleTime? {
      IdleSame(s, c, e.base, e.remaining, e.each, e.effects, id);
    } else {
      StepSame(s, c, e, id);
    }
  }

  lemma BlockMoves(s: Oracle, c: Config, id: RequestId)
    requires Inv(s, c) && id in s.place
    ensures
      var t := NextBlock(s);
      && t.now == s.now + 1 && id in t.place && t.place[id] == PlaceAfter(s.place[id], s.now + 1)
      && t.responses == s.responses
  {
    BlockPlaces(s, c);
  }

  // ---- Responses ----

  /** `id` is contestable until block `b` and its response is `r`; from then on it is queued or has run. */
  ghost predicate Contested(s: Oracle, id: RequestId, b: Block, r: Response) {
    if s.now < b then At(s.place, id, Contestable(b)) && id in s.responses && s.responses[id] == r
    else id in s.place && (s.place[id].Queued? || s.place[id].CalledBack?)
  }

  lemma QueuedStays(s: Oracle, c: Config, e: Event, id: RequestId)
    requires Inv(s, c) && Sensible(c) && id in s.place && (s.place[id].Queued? || s.place[id].CalledBack?)
    ensures
      var t := Step(s, c, e);
      id in t.place && (t.place[id].Queued? || t.place[id].CalledBack?) && s.now <= t.now
  {
    assert id < s.nextId && (id in s.requests ==> id in s.responses);
    if e.Tick? {
      BlockMoves(s, c, id);
    } else if e.IdleTime? {
      IdleStays(s, c, e.base, e.remaining, e.each, e.effects, id);
    } else {
      StepSame(s, c, e, id);
    }
  }

  lemma {:induction false} LoopStays(s: Oracle, c: Config, ids: seq<RequestId>, consumed: nat, remaining: nat,
                                     each: nat, effects: map<RequestId, Effect>, id: RequestId)
    requires id < s.nextId && id in s.place && (s.place[id].Queued? || s.place[id].CalledBack?)
    ensures
      var t := CallBacks(s, c, ids, consumed, remaining, each, effects).s;
      id in t.place && (t.place[id].Queued? || t.place[id].CalledBack?) && t.now == s.now
    decreases |ids|
  {
    if ids != [] {
      if ids[0] in s.challenged {
        LoopStays(s, c, ids[1..], consumed, remaining, each, effects, id);
      } else {
        var e := Get(effects, ids[0], Effect(0, []));
        AskAllOld(Leave(s, ids[0]), c, e.asked, id);
        AskAllFrame(Leave(s, ids[0]), c, e.asked);
        NowKept(Leave(s, ids[0]), c, e.asked);
        LoopStays(CallBack(s, c, ids[0], e.asked), c, ids[1..], SatU64(SatU64(consumed, each), e.weight),
                  remaining, each, effects, id);
      }
    }
  }

  lemma IdleStays(s: Oracle, c: Config, base: nat, remaining: nat, each: nat, effects: map<RequestId, Effect>,
                  id: RequestId)
    requires id < s.nextId && id in s.place && (s.place[id].Queued? || s.place[id].CalledBack?)
    ensures
      var t := Idle(s, c, base, remaining, each, effects);
      id in t.place && (t.place[id].Queued? || t.place[id].CalledBack?) && t.now == s.now
  {
    LoopStays(s, c, s.callbacks, base, remaining, each, effects, id);
  }

  lemma ContestedStep(s: Oracle, c: Config, e: Event, id: RequestId, b: Block, r: Response)
    requires Inv(s, c) && Sensible(c) && Contested(s, id, b, r)
    ensures Contested(Step(s, c, e), id, b, r) && Step(s, c, e).now == s.now + Ticks([e])
  {
    ClockStep(s, c, e);
    if s.now >= b {
      QueuedStays(s, c, e, id);
    } else if e.Tick? {
      BlockMoves(s, c, id);
    } else {
      UnqueuedKept(s, c, e, id);
    }
  }

  lemma ClockStep(s: Oracle, c: Config, e: Event)
    ensures Step(s, c, e).now == s.now + Ticks([e])
  {
    match e
    case IdleTime(base, remaining, each, effects) => ClockLoop(s, c, s.callbacks, base, remaining, each, effects);
    case _ =>
  }

  lemma {:induction false} ClockLoop(s: Oracle, c: Config, ids: seq<RequestId>, consumed: nat, remaining: nat,
                                     each: nat, effects: map<RequestId, Effect>)
    ensures CallBacks(s, c, ids, consumed, remaining, each, effects).s.now == s.now
    decreases |ids|
  {
    if ids != [] {
      if ids[0] in s.challenged {
        ClockLoop(s, c, ids[1..], consumed, remaining, each, effects);
      } else {
        var e := Get(effects, ids[0], Effect(0, []));
        NowKept(Leave(s, ids[0]), c, e.asked);
        ClockLoop(CallBack(s, c, ids[0], e.asked), c, ids[1..], SatU64(SatU64(consumed, each), e.weight),
                  remaining, each, effects);
      }
    }
  }

  lemma {:induction false} ContestedRun(s: Oracle, c: Config, es: seq<Event>, id: RequestId, b: Block, r: Response)
    requires Inv(s, c) && Sensible(c) && Contested(s, id, b, r)
    ensures Contested(Run(s, c, es), id, b, r) && Run(s, c, es).now == s.now + Ticks(es)
    decreases |es|
  {
    if es != [] {
      StepKeeps(s, c, es[0]);
      ContestedStep(s, c, es[0], id, b, r);
      ContestedRun(Step(s, c, es[0]), c, es[1..], id, b, r);
    }
  }

  /** An accepted response stands unchanged, open to challenge, for exactly `period` blocks, whatever else happens;
      then it is queued for its callback. */
  lemma ResponseStands(s: Oracle, c: Config, id: RequestId, r: Response, es: seq<Event>)
    requires Inv(s, c) && Sensible(c) && Respond(s, c, id, r).Ok?
    ensures
      var t := Run(Respond(s, c, id, r).value, c, es);
      if Ticks(es) < c.period
      then At(t.place, id, Contestable(s.now + c.period)) && id in t.responses && t.responses[id] == r
      else id in t.place && (t.place[id].Queued? || t.place[id].CalledBack?)
  {
    var t := Accept(s, c, id, r);
    assert Respond(s, c, id, r) == Ok(t);
    AcceptKeeps(s, c, id, r);
    assert Contested(t, id, s.now + c.period, r);
    ContestedRun(t, c, es, id, s.now + c.period, r);
  }

  // ---- Requests ----

  /** Unanswered, `id` lives until block `b` and then lapses. */
  ghost predicate Open(s: Oracle, id: RequestId, b: Block) {
    At(s.place, id, if s.now < b then Expiring(b) else Lapsed)
  }

  lemma LapsedStays(s: Oracle, c: Config, e: Event, id: RequestId)
    requires Inv(s, c) && Sensible(c) && At(s.place, id, Lapsed)
    ensures At(Step(s, c, e).place, id, Lapsed)
  {
    if e.Tick? {
      BlockMoves(s, c, id);
    } else {
      UnqueuedKept(s, c, e, id);
    }
  }

  lemma OpenStep(s: Oracle, c: Config, e: Event, id: RequestId, b: Block)
    requires Inv(s, c) && Sensible(c) && Open(s, id, b) && !(e.SubmitResponse? && e.id == id)
    ensures Open(Step(s, c, e), id, b)
  {
    ClockStep(s, c, e);
    if s.now >= b {
      LapsedStays(s, c, e, id);
    } else if e.Tick? {
      BlockMoves(s, c, id);
    } else {
      UnqueuedKept(s, c, e, id);
    }
  }

  lemma {:induction false} OpenRun(s: Oracle, c: Config, es: seq<Event>, id: RequestId, b: Block)
    requires Inv(s, c) && Sensible(c) && Open(s, id, b)
    requires forall i :: 0 <= i < |es| ==> !(es[i].SubmitResponse? && es[i].id == id)
    ensures Open(Run(s, c, es), id, b) && Run(s, c, es).now == s.now + Ticks(es)
    decreases |es|
  {
    if es != [] {
      StepKeeps(s, c, es[0]);
      ClockStep(s, c, es[0]);
      OpenStep(s, c, es[0], id, b);
      OpenRun(Step(s, c, es[0]), c, es[1..], id, b);
    }
  }

  /** A request nobody answers lives for exactly `period` blocks, whatever else happens, and then lapses. */
  lemma RequestLives(s: Oracle, c: Config, n: Nested, es: seq<Event>)
    requires Inv(s, c) && Sensible(c) && Ask(s, c, n.body, n.weightLimit, n.timestamp).Ok?
    requires forall i :: 0 <= i < |es| ==> !(es[i].SubmitResponse? && es[i].id == s.nextId)
    ensures
      var t := Run(Ask(s, c, n.body, n.weightLimit, n.timestamp).value, c, es);
      if Ticks(es) < c.period then At(t.place, s.nextId, Expiring(s.now + c.period)) && s.nextId in t.requests
      else At(t.place, s.nextId, Lapsed) && s.nextId !in t.requests
  {
    var t := Ask(s, c, n.body, n.weightLimit, n.timestamp).value;
    AskKeeps(s, c, n, s.callbacks);
    OpenRun(t, c, es, s.nextId, s.now + c.period);
    RunKeeps(t, c, es);
  }
}
