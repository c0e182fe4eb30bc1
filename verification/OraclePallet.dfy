/** Storage and handlers of the state oracle. */
module OraclePallet {
  import opened Prelude
  import opened OracleSpec
  import opened OracleSafety

  class StateOracle {
    const config: Config
    var now: Block
    var nextId: RequestId
    var requests: map<RequestId, Request>
    var responses: map<RequestId, Response>
    var validAt: map<Block, seq<RequestId>>
    var expiredAt: map<Block, seq<RequestId>>
    var callbacks: seq<RequestId>
    var relayers: map<AccountId, nat>
    var challengers: map<AccountId, nat>
    var challenged: map<RequestId, AccountId>
    var thisBlock: nat
    var drift: nat
    ghost var place: map<RequestId, Place>
    ghost var ran: seq<RequestId>

    ghost function View(): Oracle
      reads this
    {
      Oracle(now, nextId, requests, responses, validAt, expiredAt, callbacks, relayers, challengers, challenged,
             thisBlock, drift, place, ran)
    }

    constructor (c: Config, start: Block, tolerated: nat)
      ensures View() == Start(start, tolerated) && config == c
    {
      config := c;
      now, nextId, requests, responses, validAt, expiredAt, callbacks := start, 0, map[], map[], map[], map[], [];
      relayers, challengers, challenged, thisBlock, drift, place, ran := map[], map[], map[], 0, tolerated, map[], [];
    }

    /** Queue the responses that are valid from block `b` on. */
    method Promote(b: Block)
      modifies this`callbacks, this`validAt
      ensures View() ==
        old(View()).(callbacks := old(callbacks) + old(View()).ValidAt(b), validAt := old(validAt) - {b})
    {
      var ids, i := Get(validAt, b, []), 0;
      while i < |ids|
        invariant 0 <= i <= |ids| && callbacks == old(callbacks) + ids[..i] && validAt == old(validAt)
      {
        callbacks := callbacks + [ids[i]];
        i := i + 1;
      }
      assert ids[..i] == ids;
      validAt := validAt - {b};
    }

    /** Drop the requests that expire in block `b`. */
    method Expire(b: Block)
      modifies this`requests, this`expiredAt
      ensures View() ==
        old(View()).(requests := old(requests) - Elements(old(View()).ExpiredAt(b)), expiredAt := old(expiredAt) - {b})
    {
      var ids, i := Get(expiredAt, b, []), 0;
      while i < |ids|
        invariant 0 <= i <= |ids| && expiredAt == old(expiredAt)
        invariant requests == old(requests) - Elements(ids[..i])
      {
        assert Elements(ids[..i + 1]) == Elements(ids[..i]) + {ids[i]};
        requests := requests - {ids[i]};
        i := i + 1;
      }
      assert ids[..i] == ids;
      expiredAt := expiredAt - {b};
    }

    /** `on_initialize`, at the block after `now`. */
    method OnInitialize()
      modifies this
      ensures View() == NextBlock(old(View()))
    {
      var b: Block := now + 1;
      place := Move(Move(place, Get(validAt, b, []), Queued), Get(expiredAt, b, []), Lapsed);
      now, thisBlock := b, 0;
      Promote(b);
      Expire(b);
    }

    /** `new_request` */
    method Request(body: nat, weightLimit: nat, timestamp: nat) returns (r: Result<RequestId, Error>)
      modifies this`nextId, this`requests, this`thisBlock, this`expiredAt, this`place
      ensures
        var spec := Ask(old(View()), config, body, weightLimit, timestamp);
        if spec.Ok? then r == Ok(old(nextId)) && View() == spec.value else r == Err(spec.error) && View() == old(View())
    {
      if thisBlock >= config.maxRequests {
        r := Err(NoAvailableResponses);
      } else if challengers == map[] {
        r := Err(NoChallengers);
      } else {
        var id, b := nextId, now + config.period;
        StoreRequest(id, OracleSpec.Request(body, weightLimit, timestamp, b));
        r := Ok(id);
      }
    }

    method StoreRequest(id: RequestId, request: Request)
      requires id == nextId
      modifies this`nextId, this`requests, this`thisBlock, this`expiredAt, this`place
      ensures
        var (s, b) := (old(View()), request.expiry);
        View() == s.(nextId := id + 1, thisBlock := s.thisBlock + 1, requests := s.requests[id := request],
                     expiredAt := s.expiredAt[b := s.ExpiredAt(b) + [id]], place := s.place[id := Expiring(b)])
    {
      var b := request.expiry;
      requests := requests[id := request];
      nextId := id + 1;
      thisBlock := thisBlock + 1;
      expiredAt := expiredAt[b := Get(expiredAt, b, []) + [id]];
      place := place[id := Expiring(b)];
    }

    /** `bond_relayer` */
    method BondRelayer(who: AccountId, canReserve: bool) returns (r: Result<(), Error>)
      modifies this`relayers
      ensures
        var spec := Enrol(old(View()), config, who, canReserve);
        if spec.Ok? then r == Ok(()) && View() == spec.value else r == Err(spec.error) && View() == old(View())
    {
      if Get(relayers, who, 0) != 0 {
        r := Err(AlreadyBonded);
      } else if |relayers| >= config.maxRelayers {
        r := Err(MaxRelayersReached);
      } else if !canReserve {
        r := Err(CannotReserve);
      } else {
        relayers := relayers[who := config.bond];
        r := Ok(());
      }
    }

    /** Whether `who` has an active response: a loop over all responses. */
    method HasResponse(who: AccountId) returns (found: bool)
      ensures found <==> exists id :: id in responses && responses[id].relayer == who
    {
      var left := responses.Keys;
      found := false;
      while left != {} && !found
        invariant left <= responses.Keys
        invariant found ==> exists id :: id in responses && responses[id].relayer == who
        invariant !found ==> forall id :: id in responses && id !in left ==> responses[id].relayer != who
      {
        var id :| id in left;
        found := responses[id].relayer == who;
        left := left - {id};
      }
    }

    /** `unbond_relayer` */
    method UnbondRelayer(who: AccountId) returns (r: Result<(), Error>)
      modifies this`relayers
      ensures
        var spec := Resign(old(View()), who);
        if spec.Ok? then r == Ok(()) && View() == spec.value else r == Err(spec.error) && View() == old(View())
    {
      var active := HasResponse(who);
      if Get(relayers, who, 0) == 0 {
        r := Err(NotEnoughBonded);
      } else if active {
        r := Err(CantUnbond);
      } else {
        relayers := relayers - {who};
        r := Ok(());
      }
    }

    /** `submit_call_response` */
    method SubmitCallResponse(id: RequestId, response: Response) returns (r: Result<(), Error>)
      modifies this`responses, this`validAt, this`expiredAt, this`place
      ensures
        var spec := Respond(old(View()), config, id, response);
        if spec.Ok? then r == Ok(()) && View() == spec.value else r == Err(spec.error) && View() == old(View())
    {
      if Get(relayers, response.relayer, 0) < config.bond {
        r := Err(NotEnoughBonded);
      } else if id !in requests {
        r := Err(NoRequest);
      } else if id in responses {
        r := Err(ResponseExists);
      } else if !(SatSub(requests[id].timestamp, ETH_BLOCK_TIME_S * drift) <= response.timestamp
                  <= SatU64(requests[id].timestamp, ETH_BLOCK_TIME_S * drift)) {
        r := Err(InvalidResponseTimestamp);
      } else {
        StoreResponse(id, response);
        r := Ok(());
      }
    }

    method StoreResponse(id: RequestId, response: Response)
      requires id in requests
      modifies this`responses, this`validAt, this`expiredAt, this`place
      ensures View() == Accept(old(View()), config, id, response)
    {
      var b, e := now + config.period, requests[id].expiry;
      var kept := Retain(Get(expiredAt, e, []), id);
      responses, validAt := responses[id := response], validAt[b := Get(validAt, b, []) + [id]];
      expiredAt, place := expiredAt[e := kept], place[id := Contestable(b)];
    }

    /** The requests made from inside a callback. */
    method RequestAll(asked: seq<Nested>)
      modifies this`nextId, this`requests, this`thisBlock, this`expiredAt, this`place
      ensures View() == AskAll(old(View()), config, asked)
    {
      var i := 0;
      while i < |asked|
        invariant 0 <= i <= |asked|
        invariant AskAll(View(), config, asked[i..]) == AskAll(old(View()), config, asked)
      {
        assert asked[i..][1..] == asked[i + 1..];
        var _ := Request(asked[i].body, asked[i].weightLimit, asked[i].timestamp);
        i := i + 1;
      }
    }

    method RunCallback(id: RequestId, asked: seq<Nested>)
      modifies this`nextId, this`requests, this`thisBlock, this`expiredAt, this`place, this`responses, this`ran
      ensures View() == CallBack(old(View()), config, id, asked)
    {
      requests := requests - {id};
      responses := responses - {id};
      place := place[id := CalledBack];
      ran := ran + [id];
      RequestAll(asked);
    }

    /** `bond_challenger` */
    method BondChallenger(who: AccountId, canReserve: bool) returns (r: Result<(), Error>)
      modifies this`challengers
      ensures
        var spec := EnrolChallenger(old(View()), config, who, canReserve);
        if spec.Ok? then r == Ok(()) && View() == spec.value else r == Err(spec.error) && View() == old(View())
    {
      if Get(challengers, who, 0) != 0 {
        r := Err(AlreadyBonded);
      } else if !canReserve {
        r := Err(CannotReserve);
      } else {
        challengers := challengers[who := config.bond];
        r := Ok(());
      }
    }

    /** Whether `who` has an open challenge: a loop over all challenges. */
    method HasChallenge(who: AccountId) returns (found: bool)
      ensures found <==> exists id :: id in challenged && challenged[id] == who
    {
      var left := challenged.Keys;
      found := false;
      while left != {} && !found
        invariant left <= challenged.Keys
        invariant found ==> exists id :: id in challenged && challenged[id] == who
        invariant !found ==> forall id :: id in challenged && id !in left ==> challenged[id] != who
      {
        var id :| id in left;
        found := challenged[id] == who;
        left := left - {id};
      }
    }

    /** `unbond_challenger` */
    method UnbondChallenger(who: AccountId) returns (r: Result<(), Error>)
      modifies this`challengers
      ensures
        var spec := ResignChallenger(old(View()), who);
        if spec.Ok? then r == Ok(()) && View() == spec.value else r == Err(spec.error) && View() == old(View())
    {
      var active := HasChallenge(who);
      if Get(challengers, who, 0) == 0 {
        r := Err(NotEnoughBonded);
      } else if active {
        r := Err(ActiveChallenger);
      } else {
        challengers := challengers - {who};
        r := Ok(());
      }
    }

    /** `submit_response_challenge` */
    method SubmitResponseChallenge(who: AccountId, id: RequestId) returns (r: Result<(), Error>)
      modifies this`challenged
      ensures
        var spec := Challenge(old(View()), config, who, id);
        if spec.Ok? then r == Ok(()) && View() == spec.value else r == Err(spec.error) && View() == old(View())
    {
      if id !in requests {
        r := Err(NoRequest);
      } else if id in challenged {
        r := Err(DuplicateChallenge);
      } else if Get(challengers, who, 0) < config.bond {
        r := Err(NotEnoughBonded);
      } else if id !in responses {
        r := Err(NoResponse);
      } else {
        challenged := challenged[id := who];
        r := Ok(());
      }
    }

    /** The loop over the callback queue, as far as the weight goes. `done` is false if a queued request or
        response is missing. */
    method RunCallbacks(base: nat, remaining: nat, each: nat, effects: map<RequestId, Effect>)
        returns (processed: nat, consumed: nat, done: bool)
      modifies this`nextId, this`requests, this`thisBlock, this`expiredAt, this`place, this`responses, this`ran
      ensures CallBacks(old(View()), config, old(callbacks), base, remaining, each, effects) ==
        Progress(View(), processed, consumed, done)
    {
      processed, consumed, done := 0, base, true;
      ghost var start := View();
      var queue, i, full := callbacks, 0, false;
      while i < |queue| && !full && done
        invariant 0 <= i <= |queue| && callbacks == queue
        invariant OnTrack(start, View(), config, queue, i, processed, base, consumed, remaining, each, effects)
        invariant full || !done ==>
            CallBacks(View(), config, queue[i..], consumed, remaining, each, effects) ==
            Progress(View(), 0, consumed, done)
        decreases |queue| - i, !full, done
      {
        ghost var s := View();
        IdleTurn(start, s, config, queue, i, processed, base, consumed, remaining, each, effects);
        var id := queue[i];
        if id in challenged {
          i := i + 1;
        } else if id !in requests {
          done := false;
        } else if SatU64(SatU64(consumed, each), requests[id].weightLimit) > remaining {
          full := true;
        } else if id !in responses {
          done := false;
        } else {
          var e := Get(effects, id, Effect(0, []));
          RunCallback(id, e.asked);
          consumed := SatU64(SatU64(consumed, each), e.weight);
          i, processed := i + 1, processed + 1;
        }
      }
    }

    /** `on_idle`. If it is not `done` the block is dropped with all its changes; while the queue is in step
        that never happens. */
    method OnIdle(base: nat, remaining: nat, each: nat, effects: map<RequestId, Effect>)
        returns (done: bool, consumed: nat)
      modifies this`nextId, this`requests, this`thisBlock, this`expiredAt, this`place, this`responses, this`ran,
               this`callbacks
      ensures done ==> View() == Idle(old(View()), config, base, remaining, each, effects)
      ensures
        old(callbacks) != [] ==>
          var p := CallBacks(old(View()), config, old(callbacks), base, remaining, each, effects);
          done == p.ok && consumed == p.consumed
      ensures Steady(old(View()), config) ==> done
    {
      done, consumed := true, base;
      if callbacks != [] {
        ghost var start := View();
        var processed;
        processed, consumed, done := RunCallbacks(base, remaining, each, effects);
        callbacks := callbacks[processed..];
        if Steady(start, config) { Succeeds(start, config, base, remaining, each, effects); }
      }
    }
  }

  ghost predicate Steady(s: Oracle, c: Config) { Inv(s, c) && InStep(s.callbacks, s.place) && Sensible(c) }

  lemma Succeeds(s: Oracle, c: Config, base: nat, remaining: nat, each: nat, effects: map<RequestId, Effect>)
    requires Steady(s, c)
    ensures CallBacks(s, c, s.callbacks, base, remaining, each, effects).ok
  {
    CallBacksSucceed(s, c, s.callbacks, s.callbacks, base, remaining, each, effects);
  }

  /** The loop, started in `start`, is at place `i` of the queue, has processed some callbacks and reached `s`. */
  ghost predicate OnTrack(start: Oracle, s: Oracle, c: Config, queue: seq<RequestId>, i: nat, processed: nat,
                          base: nat, consumed: nat, remaining: nat, each: nat, effects: map<RequestId, Effect>)
    requires i <= |queue|
  {
    var p := CallBacks(s, c, queue[i..], consumed, remaining, each, effects);
    CallBacks(start, c, queue, base, remaining, each, effects) ==
    Progress(p.s, p.processed + processed, p.consumed, p.ok)
  }

  /** One turn of the loop: it passes over the id, stops, or runs its callback. */
  lemma IdleTurn(start: Oracle, s: Oracle, c: Config, queue: seq<RequestId>, i: nat, processed: nat, base: nat,
                 consumed: nat, remaining: nat, each: nat, effects: map<RequestId, Effect>)
    requires i < |queue| && OnTrack(start, s, c, queue, i, processed, base, consumed, remaining, each, effects)
    ensures
      var id := queue[i];
      var e := Get(effects, id, Effect(0, []));
      var p := CallBacks(s, c, queue[i..], consumed, remaining, each, effects);
      if id in s.challenged then
        OnTrack(start, s, c, queue, i + 1, processed, base, consumed, remaining, each, effects)
      else if id !in s.requests then p == Progress(s, 0, consumed, false)
      else if SatU64(SatU64(consumed, each), s.requests[id].weightLimit) > remaining then
        p == Progress(s, 0, consumed, true)
      else if id !in s.responses then p == Progress(s, 0, consumed, false)
      else
        var t := CallBack(s, c, id, e.asked);
        && t.callbacks == s.callbacks
        && OnTrack(start, t, c, queue, i + 1, processed + 1, base, SatU64(SatU64(consumed, each), e.weight),
                   remaining, each, effects)
  {
    assert queue[i..][1..] == queue[i + 1..];
    AskAllFrame(Leave(s, queue[i]), c, Get(effects, queue[i], Effect(0, [])).asked);
  }

  /** `retain` all ids but one. */
  method Retain(ids: seq<RequestId>, id: RequestId) returns (kept: seq<RequestId>)
    ensures kept == Without(ids, id)
  {
    kept := [];
    var i := 0;
    while i < |ids|
      invariant 0 <= i <= |ids|
      invariant kept + Without(ids[i..], id) == Without(ids, id)
    {
      assert ids[i..][1..] == ids[i + 1..];
      if ids[i] != id { kept := kept + [ids[i]]; }
      i := i + 1;
    }
  }
}
