/** What every run of the state oracle keeps: its schedules, its histories and its bonds. */
module OracleSafety {
  import opened Prelude
  import opened OracleSpec

  predicate Live(p: Place) { p.Expiring? || p.Contestable? || p.Queued? }

  predicate Answered(p: Place) { p.Contestable? || p.Queued? }

  predicate At(place: map<RequestId, Place>, id: RequestId, p: Place) { id in place && place[id] == p }

  /** What is stored about a request follows from its place. */
  ghost predicate Stored(nextId: RequestId, requests: map<RequestId, Request>, responses: map<RequestId, Response>,
                         place: map<RequestId, Place>) {
    && (forall id: nat :: id in place <==> id < nextId)
    && (forall id: nat :: id in requests <==> id in place && Live(place[id]))
    && (forall id: nat :: id in responses <==> id in place && Answered(place[id]))
    && (forall id: nat :: id in requests && place[id].Expiring? ==> requests[id].expiry == place[id].at)
  }

  /** A schedule lists, without repetition, the requests whose place is that block, all to come. */
  ghost predicate Scheduled(schedule: map<Block, seq<RequestId>>, place: map<RequestId, Place>, now: Block,
                            at: Block -> Place) {
    && (forall b: nat, id: nat :: id in Get(schedule, b, []) <==> At(place, id, at(b)) && b in schedule)
    && (forall b: nat :: Distinct(Get(schedule, b, [])))
    && (forall b: nat, id: nat :: At(place, id, at(b)) ==> now < b && b in schedule)
  }

  /** The callback queue lists exactly the requests waiting to be called back. */
  ghost predicate InStep(callbacks: seq<RequestId>, place: map<RequestId, Place>) {
    forall id: nat :: id in callbacks <==> At(place, id, Queued)
  }

  /** What the queue keeps even when it is out of step: no id twice, and only ids that were queued. */
  ghost predicate Listed(callbacks: seq<RequestId>, place: map<RequestId, Place>) {
    Distinct(callbacks) && forall id: nat :: id in callbacks ==> At(place, id, Queued) || At(place, id, CalledBack)
  }

  ghost predicate RanOk(ran: seq<RequestId>, place: map<RequestId, Place>) {
    Distinct(ran) && forall id: nat :: id in ran <==> At(place, id, CalledBack)
  }

  ghost predicate BondsOk(responses: map<RequestId, Response>, relayers: map<AccountId, nat>, bond: nat) {
    forall id :: id in responses ==> Get(relayers, responses[id].relayer, 0) >= bond
  }

  /** Challenged responses are still there, and their challengers are bonded. */
  ghost predicate ChallengesOk(challenged: map<RequestId, AccountId>, responses: map<RequestId, Response>,
                               challengers: map<AccountId, nat>, bond: nat) {
    forall id :: id in challenged ==> id in responses && Get(challengers, challenged[id], 0) >= bond
  }

  const EXPIRY: Block -> Place := (b: Block) => Expiring(b)
  const VALIDITY: Block -> Place := (b: Block) => Contestable(b)

  /** The invariant, with `queue` as the callback queue. */
  ghost predicate Sound(s: Oracle, c: Config, queue: seq<RequestId>) {
    && Stored(s.nextId, s.requests, s.responses, s.place)
    && Scheduled(s.expiredAt, s.place, s.now, EXPIRY)
    && Scheduled(s.validAt, s.place, s.now, VALIDITY)
    && Listed(queue, s.place)
    && RanOk(s.ran, s.place)
    && BondsOk(s.responses, s.relayers, c.bond)
    && ChallengesOk(s.challenged, s.responses, s.challengers, c.bond)
  }

  ghost predicate Inv(s: Oracle, c: Config) { Sound(s, c, s.callbacks) }

  // ---- Schedules ----

  /** Requests that do not enter or leave this kind of place do not matter to the schedule. */
  lemma ScheduleSame(schedule: map<Block, seq<RequestId>>, place: map<RequestId, Place>, place': map<RequestId, Place>,
                     now: Block, at: Block -> Place)
    requires Scheduled(schedule, place, now, at)
    requires forall b: nat, id: nat :: At(place', id, at(b)) <==> At(place, id, at(b))
    ensures Scheduled(schedule, place', now, at)
  {
  }

  /** A request enters a later block of the schedule. */
  lemma ScheduleAdd(schedule: map<Block, seq<RequestId>>, place: map<RequestId, Place>, place': map<RequestId, Place>,
                    now: Block, at: Block -> Place, b: Block, id: RequestId)
    requires Scheduled(schedule, place, now, at) && now < b
    requires forall c: nat :: !At(place, id, at(c))
    requires forall c: nat, x: nat :: At(place', x, at(c)) <==> At(place, x, at(c)) || (x == id && c == b)
    ensures Scheduled(schedule[b := Get(schedule, b, []) + [id]], place', now, at)
  {
    var (ids, next) := (Get(schedule, b, []), schedule[b := Get(schedule, b, []) + [id]]);
    assert id !in ids;
    assert Distinct(ids + [id]);
    forall c: nat, x: nat ensures x in Get(next, c, []) <==> At(place', x, at(c)) && c in next {
      assert x in Get(schedule, c, []) <==> At(place, x, at(c)) && c in schedule;
    }
    forall c: nat ensures Distinct(Get(next, c, [])) { assert Distinct(Get(schedule, c, [])); }
  }

  lemma {:induction false} WithoutMembers(ids: seq<RequestId>, id: RequestId)
    requires Distinct(ids)
    ensures Distinct(Without(ids, id)) && forall x :: x in Without(ids, id) <==> x in ids && x != id
  {
    if ids != [] {
      WithoutMembers(ids[1..], id);
      assert ids == [ids[0]] + ids[1..];
      assert ids[0] !in ids[1..];
    }
  }

  /** A request leaves its block of the schedule. */
  lemma ScheduleDrop(schedule: map<Block, seq<RequestId>>, place: map<RequestId, Place>, place': map<RequestId, Place>,
                     now: Block, at: Block -> Place, b: Block, id: RequestId)
    requires Scheduled(schedule, place, now, at) && At(place, id, at(b))
    requires forall c: nat, x: nat :: At(place', x, at(c)) <==> At(place, x, at(c)) && !(x == id && c == b)
    ensures Scheduled(schedule[b := Without(Get(schedule, b, []), id)], place', now, at)
  {
    WithoutMembers(Get(schedule, b, []), id);
    var next := schedule[b := Without(Get(schedule, b, []), id)];
    forall c: nat, x: nat ensures x in Get(next, c, []) <==> At(place', x, at(c)) && c in next {
      assert x in Get(schedule, c, []) <==> At(place, x, at(c)) && c in schedule;
    }
    forall c: nat ensures Distinct(Get(next, c, [])) { assert Distinct(Get(schedule, c, [])); }
  }

  /** The block that has come is taken off the schedule with all its requests. */
  lemma SchedulePass(schedule: map<Block, seq<RequestId>>, place: map<RequestId, Place>, place': map<RequestId, Place>,
                     now: Block, at: Block -> Place)
    requires Scheduled(schedule, place, now, at)
    requires forall c: nat, x: nat :: At(place', x, at(c)) <==> At(place, x, at(c)) && c != now + 1
    ensures Scheduled(schedule - {now + 1}, place', now + 1, at)
  {
    var next: map<Block, seq<RequestId>> := schedule - {now + 1};
    forall c: nat, x: nat ensures x in Get(next, c, []) <==> At(place', x, at(c)) && c in next {
      assert x in Get(schedule, c, []) <==> At(place, x, at(c)) && c in schedule;
    }
    forall c: nat, x: nat | At(place', x, at(c)) ensures now + 1 < c && c in next {
      assert At(place, x, at(c)) && now < c && c in schedule;
    }
    forall c: nat ensures Distinct(Get(next, c, [])) { assert Distinct(Get(schedule, c, [])); }
  }

  // ---- Steps ----

  /** The queue and the history see only the requests that enter or leave them. */
  lemma QueueSame(place: map<RequestId, Place>, place': map<RequestId, Place>, id: RequestId, queue: seq<RequestId>,
                  ran: seq<RequestId>)
    requires Listed(queue, place) && RanOk(ran, place)
    requires id in place' && !place'[id].Queued? && !place'[id].CalledBack?
    requires id in place ==> !place[id].Queued? && !place[id].CalledBack?
    requires place' == place[id := place'[id]]
    ensures Listed(queue, place') && RanOk(ran, place')
    ensures InStep(queue, place) ==> InStep(queue, place')
  {
    assert forall x: nat :: At(place', x, Queued) <==> At(place, x, Queued);
    assert forall x: nat :: At(place', x, CalledBack) <==> At(place, x, CalledBack);
  }

  lemma NewStored(id: RequestId, requests: map<RequestId, Request>, responses: map<RequestId, Response>,
                  place: map<RequestId, Place>, r: Request)
    requires Stored(id, requests, responses, place)
    ensures Stored(id + 1, requests[id := r], responses, place[id := Expiring(r.expiry)])
  {
  }

  lemma ResponseStored(nextId: RequestId, requests: map<RequestId, Request>, responses: map<RequestId, Response>,
                       place: map<RequestId, Place>,
                       id: RequestId, r: Response, b: Block)
    requires Stored(nextId, requests, responses, place) && id in requests
    ensures Stored(nextId, requests, responses[id := r], place[id := Contestable(b)])
  {
  }

  lemma AskKeeps(s: Oracle, c: Config, n: Nested, queue: seq<RequestId>)
    requires Sound(s, c, queue) && Sensible(c) && Ask(s, c, n.body, n.weightLimit, n.timestamp).Ok?
    ensures Sound(Ask(s, c, n.body, n.weightLimit, n.timestamp).value, c, queue)
  {
    var t := Ask(s, c, n.body, n.weightLimit, n.timestamp).value;
    assert s.nextId !in s.place;
    ScheduleAdd(s.expiredAt, s.place, t.place, s.now, EXPIRY, s.now + c.period, s.nextId);
    ScheduleSame(s.validAt, s.place, t.place, s.now, VALIDITY);
    QueueSame(s.place, t.place, s.nextId, queue, s.ran);
    NewStored(s.nextId, s.requests, s.responses, s.place, t.requests[s.nextId]);
  }

  lemma AcceptSchedules(s: Oracle, c: Config, id: RequestId, r: Response)
    requires Inv(s, c) && Sensible(c) && id in s.requests && id !in s.responses
    ensures
      var t := Accept(s, c, id, r);
      Scheduled(t.validAt, t.place, t.now, VALIDITY) && Scheduled(t.expiredAt, t.place, t.now, EXPIRY)
  {
    var (b, e) := (s.now + c.period, s.requests[id].expiry);
    var place := s.place[id := Contestable(b)];
    assert At(s.place, id, EXPIRY(e));
    ScheduleAdd(s.validAt, s.place, place, s.now, VALIDITY, b, id);
    ScheduleDrop(s.expiredAt, s.place, place, s.now, EXPIRY, e, id);
  }

  lemma AcceptBonds(responses: map<RequestId, Response>, relayers: map<AccountId, nat>,
                    challenged: map<RequestId, AccountId>, challengers: map<AccountId, nat>, bond: nat,
                    id: RequestId, r: Response)
    requires BondsOk(responses, relayers, bond) && ChallengesOk(challenged, responses, challengers, bond)
    requires Get(relayers, r.relayer, 0) >= bond
    ensures BondsOk(responses[id := r], relayers, bond)
    ensures ChallengesOk(challenged, responses[id := r], challengers, bond)
  {
  }

  lemma AcceptKeeps(s: Oracle, c: Config, id: RequestId, r: Response)
    requires Inv(s, c) && Sensible(c) && id in s.requests && id !in s.responses && s.Bond(r.relayer) >= c.bond
    ensures Inv(Accept(s, c, id, r), c)
  {
    var (b, t) := (s.now + c.period, Accept(s, c, id, r));
    assert t == s.(responses := s.responses[id := r], place := s.place[id := Contestable(b)],
                   validAt := t.validAt, expiredAt := t.expiredAt);
    QueueSame(s.place, t.place, id, s.callbacks, s.ran);
    ResponseStored(s.nextId, s.requests, s.responses, s.place, id, r, b);
    AcceptSchedules(s, c, id, r);
    AcceptBonds(s.responses, s.relayers, s.challenged, s.challengers, c.bond, id, r);
  }

  lemma ResignKeeps(s: Oracle, c: Config, who: AccountId)
    requires Inv(s, c) && Resign(s, who).Ok?
    ensures Inv(Resign(s, who).value, c)
  {
    forall id | id in s.responses ensures Get(s.relayers - {who}, s.responses[id].relayer, 0) >= c.bond {
      assert s.responses[id].relayer != who;
    }
  }

  lemma EnrolKeeps(s: Oracle, c: Config, who: AccountId, canReserve: bool)
    requires Inv(s, c) && Enrol(s, c, who, canReserve).Ok?
    ensures Inv(Enrol(s, c, who, canReserve).value, c)
  {
  }

  lemma ResignChallengerKeeps(s: Oracle, c: Config, who: AccountId)
    requires Inv(s, c) && ResignChallenger(s, who).Ok?
    ensures Inv(ResignChallenger(s, who).value, c)
  {
    forall id | id in s.challenged ensures Get(s.challengers - {who}, s.challenged[id], 0) >= c.bond {
      assert s.challenged[id] != who;
    }
  }

  lemma EnrolChallengerKeeps(s: Oracle, c: Config, who: AccountId, canReserve: bool)
    requires Inv(s, c) && EnrolChallenger(s, c, who, canReserve).Ok?
    ensures Inv(EnrolChallenger(s, c, who, canReserve).value, c)
  {
  }

  /** Where a new block leaves a request. */
  function PlaceAfter(p: Place, b: Block): Place {
    if p == Contestable(b) then Queued else if p == Expiring(b) then Lapsed else p
  }

  lemma BlockPlaces(s: Oracle, c: Config)
    requires Inv(s, c)
    ensures
      var (t, b) := (NextBlock(s), s.now + 1);
      && (forall id: nat :: id in s.ValidAt(b) <==> At(s.place, id, Contestable(b)))
      && (forall id: nat :: id in s.ExpiredAt(b) <==> At(s.place, id, Expiring(b)))
      && (forall id: nat :: id in t.place <==> id in s.place)
      && (forall id: nat :: id in s.place ==> t.place[id] == PlaceAfter(s.place[id], b))
  {
    var b := s.now + 1;
    forall id: nat
        ensures (id in s.ValidAt(b) <==> At(s.place, id, Contestable(b)))
          && (id in s.ExpiredAt(b) <==> At(s.place, id, Expiring(b))) {
      assert id in Get(s.validAt, b, []) <==> At(s.place, id, VALIDITY(b)) && b in s.validAt;
      assert id in Get(s.expiredAt, b, []) <==> At(s.place, id, EXPIRY(b)) && b in s.expiredAt;
    }
  }

  lemma BlockQueue(s: Oracle, c: Config)
    requires Inv(s, c)
    ensures
      var t := NextBlock(s);
      && Listed(t.callbacks, t.place) && RanOk(s.ran, t.place)
      && (InStep(s.callbacks, s.place) ==> InStep(t.callbacks, t.place))
  {
    BlockPlaces(s, c);
    assert Distinct(s.ValidAt(s.now + 1));
    QueueGrows(s.callbacks, s.ValidAt(s.now + 1), s.ran, s.place, NextBlock(s).place, s.now + 1);
  }

  /** Responses that become valid enter the queue. */
  lemma QueueGrows(callbacks: seq<RequestId>, ready: seq<RequestId>, ran: seq<RequestId>,
                   place: map<RequestId, Place>, place': map<RequestId, Place>, b: Block)
    requires Listed(callbacks, place) && RanOk(ran, place) && Distinct(ready)
    requires forall id: nat :: id in ready <==> At(place, id, Contestable(b))
    requires forall id: nat :: id in place' <==> id in place
    requires forall id: nat :: id in place ==> place'[id] == PlaceAfter(place[id], b)
    ensures Listed(callbacks + ready, place') && RanOk(ran, place')
    ensures InStep(callbacks, place) ==> InStep(callbacks + ready, place')
  {
    forall i, j | 0 <= i < |callbacks| && 0 <= j < |ready| ensures callbacks[i] != ready[j] {
      assert callbacks[i] in callbacks && ready[j] in ready;
    }
    assert forall id: nat :: id in callbacks + ready <==> id in callbacks || id in ready;
    assert forall id: nat :: At(place', id, Queued) <==> At(place, id, Queued) || id in ready;
    assert forall id: nat :: At(place', id, CalledBack) <==> At(place, id, CalledBack);
  }

  lemma BlockStored(s: Oracle, c: Config)
    requires Inv(s, c)
    ensures var t := NextBlock(s); Stored(t.nextId, t.requests, t.responses, t.place)
  {
    BlockPlaces(s, c);
    StoredAfter(s.nextId, s.requests, s.responses, s.place, NextBlock(s).requests, NextBlock(s).place, s.now + 1);
  }

  lemma StoredAfter(nextId: RequestId, requests: map<RequestId, Request>, responses: map<RequestId, Response>,
                    place: map<RequestId, Place>,
                    requests': map<RequestId, Request>, place': map<RequestId, Place>, b: Block)
    requires Stored(nextId, requests, responses, place)
    requires forall id: nat :: id in requests' <==> id in requests && place[id] != Expiring(b)
    requires forall id: nat :: id in requests' ==> requests'[id] == requests[id]
    requires forall id: nat :: id in place' <==> id in place
    requires forall id: nat :: id in place ==> place'[id] == PlaceAfter(place[id], b)
    ensures Stored(nextId, requests', responses, place')
  {
  }

  lemma BlockExpiry(s: Oracle, c: Config)
    requires Inv(s, c)
    ensures var t := NextBlock(s); Scheduled(t.expiredAt, t.place, t.now, EXPIRY)
  {
    BlockPlaces(s, c);
    SchedulePass(s.expiredAt, s.place, NextBlock(s).place, s.now, EXPIRY);
  }

  lemma BlockValidity(s: Oracle, c: Config)
    requires Inv(s, c)
    ensures var t := NextBlock(s); Scheduled(t.validAt, t.place, t.now, VALIDITY)
  {
    BlockPlaces(s, c);
    SchedulePass(s.validAt, s.place, NextBlock(s).place, s.now, VALIDITY);
  }

  lemma BlockKeeps(s: Oracle, c: Config)
    requires Inv(s, c)
    ensures Inv(NextBlock(s), c)
  {
    BlockExpiry(s, c);
    BlockValidity(s, c);
    BlockQueue(s, c);
    BlockStored(s, c);
  }

  // ---- Callbacks ----

  lemma {:induction false} AskAllKeeps(s: Oracle, c: Config, asked: seq<Nested>, queue: seq<RequestId>)
    requires Sound(s, c, queue) && Sensible(c)
    ensures Sound(AskAll(s, c, asked), c, queue)
    decreases |asked|
  {
    if asked != [] {
      var r := Ask(s, c, asked[0].body, asked[0].weightLimit, asked[0].timestamp);
      if r.Ok? { AskKeeps(s, c, asked[0], queue); }
      AskAllKeeps(OrElse(r, s), c, asked[1..], queue);
    }
  }

  /** Requests made from inside a callback touch nothing that was there before. */
  lemma {:induction false} AskAllFrame(s: Oracle, c: Config, asked: seq<Nested>)
    ensures
      var t := AskAll(s, c, asked);
      && t.ran == s.ran && t.challenged == s.challenged && t.responses == s.responses
      && t.callbacks == s.callbacks && s.nextId <= t.nextId
    decreases |asked|
  {
    if asked != [] {
      AskAllFrame(OrElse(Ask(s, c, asked[0].body, asked[0].weightLimit, asked[0].timestamp), s), c, asked[1..]);
    }
  }

  lemma {:induction false} AskAllOld(s: Oracle, c: Config, asked: seq<Nested>, id: RequestId)
    requires id < s.nextId
    ensures
      var t := AskAll(s, c, asked);
      && (id in t.requests <==> id in s.requests) && (id in s.requests ==> t.requests[id] == s.requests[id])
      && (id in t.place <==> id in s.place) && (id in s.place ==> t.place[id] == s.place[id])
    decreases |asked|
  {
    if asked != [] {
      AskAllOld(OrElse(Ask(s, c, asked[0].body, asked[0].weightLimit, asked[0].timestamp), s), c, asked[1..], id);
    }
  }

  lemma {:induction false} AskAllQueued(s: Oracle, c: Config, asked: seq<Nested>)
    requires forall id :: id in s.place ==> id < s.nextId
    ensures forall id: nat :: At(AskAll(s, c, asked).place, id, Queued) <==> At(s.place, id, Queued)
    decreases |asked|
  {
    if asked != [] {
      AskAllQueued(OrElse(Ask(s, c, asked[0].body, asked[0].weightLimit, asked[0].timestamp), s), c, asked[1..]);
    }
  }

  /** A request and its response leave storage, for the history. */
  function Leave(s: Oracle, id: RequestId): Oracle {
    s.(requests := s.requests - {id}, responses := s.responses - {id},
       place := s.place[id := CalledBack], ran := s.ran + [id])
  }

  lemma LeaveKeeps(s: Oracle, c: Config, queue: seq<RequestId>, id: RequestId)
    requires Sound(s, c, queue) && id in queue && id in s.requests && id !in s.challenged
    ensures At(s.place, id, Queued) && id in s.responses && Sound(Leave(s, id), c, queue)
  {
    var place := s.place[id := CalledBack];
    ScheduleSame(s.expiredAt, s.place, place, s.now, EXPIRY);
    ScheduleSame(s.validAt, s.place, place, s.now, VALIDITY);
    LeaveQueue(s.place, queue, s.ran, id);
    LeaveStored(s.nextId, s.requests, s.responses, s.place, id);
  }

  lemma LeaveStored(nextId: RequestId, requests: map<RequestId, Request>, responses: map<RequestId, Response>,
                    place: map<RequestId, Place>, id: RequestId)
    requires Stored(nextId, requests, responses, place) && id in place
    ensures Stored(nextId, requests - {id}, responses - {id}, place[id := CalledBack])
  {
  }

  lemma LeaveQueue(place: map<RequestId, Place>, queue: seq<RequestId>, ran: seq<RequestId>, id: RequestId)
    requires Listed(queue, place) && RanOk(ran, place) && At(place, id, Queued)
    ensures Listed(queue, place[id := CalledBack]) && RanOk(ran + [id], place[id := CalledBack])
  {
    assert id !in ran;
  }

  /** A callback: it keeps the invariant, and takes exactly its own id from those waiting. */
  lemma CallBackKeeps(s: Oracle, c: Config, queue: seq<RequestId>, id: RequestId, asked: seq<Nested>)
    requires Sound(s, c, queue) && id in queue && id in s.requests && id !in s.challenged && Sensible(c)
    ensures id in s.responses && At(s.place, id, Queued)
    ensures
      var t := CallBack(s, c, id, asked);
      && Sound(t, c, queue) && t.challenged == s.challenged && t.ran == s.ran + [id] && t.callbacks == s.callbacks
      && (forall x: nat :: At(t.place, x, Queued) <==> At(s.place, x, Queued) && x != id)
  {
    LeaveKeeps(s, c, queue, id);
    AskAllKeeps(Leave(s, id), c, asked, queue);
    AskAllFrame(Leave(s, id), c, asked);
    AskAllQueued(Leave(s, id), c, asked);
  }

  /** The callbacks that may run. */
  function Unchallenged(ids: seq<RequestId>, challenged: map<RequestId, AccountId>): seq<RequestId> {
    if ids == [] then []
    else if ids[0] in challenged then Unchallenged(ids[1..], challenged)
    else [ids[0]] + Unchallenged(ids[1..], challenged)
  }

  lemma {:induction false} UnchallengedMembers(ids: seq<RequestId>, challenged: map<RequestId, AccountId>)
    ensures forall x :: x in Unchallenged(ids, challenged) <==> x in ids && x !in challenged
  {
    if ids != [] {
      UnchallengedMembers(ids[1..], challenged);
      assert forall x :: x in ids <==> x == ids[0] || x in ids[1..];
    }
  }

  lemma {:induction false} UnchallengedFront(ids: seq<RequestId>, challenged: map<RequestId, AccountId>, n: nat)
    requires n <= |ids| && forall i :: 0 <= i < n ==> ids[i] !in challenged
    ensures n <= |Unchallenged(ids, challenged)| && Unchallenged(ids, challenged)[..n] == ids[..n]
  {
    if n > 0 {
      UnchallengedFront(ids[1..], challenged, n - 1);
      assert ids[..n] == [ids[0]] + ids[1..][..n - 1];
    }
  }

  /** Whatever is in the queue, the loop keeps the invariant. */
  lemma {:induction false} CallBacksKeep(s: Oracle, c: Config, queue: seq<RequestId>, ids: seq<RequestId>,
                                         consumed: nat, remaining: nat, each: nat, effects: map<RequestId, Effect>)
    requires Sound(s, c, queue) && Sensible(c) && (forall i :: 0 <= i < |ids| ==> ids[i] in queue)
    ensures
      var p := CallBacks(s, c, ids, consumed, remaining, each, effects);
      Sound(p.s, c, queue) && p.s.callbacks == s.callbacks
    decreases |ids|
  {
    if ids != [] {
      var (id, rest) := (ids[0], ids[1..]);
      assert id in queue;
      if id in s.challenged {
        CallBacksKeep(s, c, queue, rest, consumed, remaining, each, effects);
      } else if id in s.requests && SatU64(SatU64(consumed, each), s.requests[id].weightLimit) <= remaining {
        var e := Get(effects, id, Effect(0, []));
        CallBackKeeps(s, c, queue, id, e.asked);
        CallBacksKeep(CallBack(s, c, id, e.asked), c, queue, rest, SatU64(SatU64(consumed, each), e.weight),
                      remaining, each, effects);
      }
    }
  }

  /** Those that ran no longer wait, and all others wait as before. */
  ghost predicate Served(place: map<RequestId, Place>, place': map<RequestId, Place>, ran: seq<RequestId>) {
    forall x: nat :: At(place', x, Queued) <==> At(place, x, Queued) && x !in ran
  }

  lemma ServedOneMore(place: map<RequestId, Place>, mid: map<RequestId, Place>, place': map<RequestId, Place>,
                      id: RequestId, ran: seq<RequestId>)
    requires (forall x: nat :: At(mid, x, Queued) <==> At(place, x, Queued) && x != id) && Served(mid, place', ran)
    requires id in ran
    ensures Served(place, place', ran)
  {
  }

  lemma {:induction false} CallBacksServe(s: Oracle, c: Config, queue: seq<RequestId>, ids: seq<RequestId>,
                                          consumed: nat, remaining: nat, each: nat, effects: map<RequestId, Effect>)
    requires Sound(s, c, queue) && Sensible(c) && (forall i :: 0 <= i < |ids| ==> ids[i] in queue)
    ensures
      var p := CallBacks(s, c, ids, consumed, remaining, each, effects);
      Served(s.place, p.s.place, p.s.ran)
    decreases |ids|
  {
    assert forall x: nat :: At(s.place, x, Queued) ==> x !in s.ran;
    if ids != [] {
      var (id, rest) := (ids[0], ids[1..]);
      assert id in queue;
      if id in s.challenged {
        CallBacksServe(s, c, queue, rest, consumed, remaining, each, effects);
      } else if id in s.requests && SatU64(SatU64(consumed, each), s.requests[id].weightLimit) <= remaining {
        var e := Get(effects, id, Effect(0, []));
        var (t, spent) := (CallBack(s, c, id, e.asked), SatU64(SatU64(consumed, each), e.weight));
        CallBackKeeps(s, c, queue, id, e.asked);
        CallBacksServe(t, c, queue, rest, spent, remaining, each, effects);
        CallBacksInOrder(t, c, rest, spent, remaining, each, effects);
        var p := CallBacks(t, c, rest, spent, remaining, each, effects);
        assert p.s.ran[|s.ran|] == id;
        ServedOneMore(s.place, t.place, p.s.place, id, p.s.ran);
      }
    }
  }

  /** Callbacks run in the order of the queue, challenged ones left out. */
  lemma {:induction false} CallBacksInOrder(s: Oracle, c: Config, ids: seq<RequestId>, consumed: nat,
                                            remaining: nat, each: nat, effects: map<RequestId, Effect>)
    ensures
      var (p, able) := (CallBacks(s, c, ids, consumed, remaining, each, effects), Unchallenged(ids, s.challenged));
      p.processed <= |able| && p.s.ran == s.ran + able[..p.processed]
    decreases |ids|
  {
    var p := CallBacks(s, c, ids, consumed, remaining, each, effects);
    if ids != [] && ids[0] in s.challenged {
      CallBacksInOrder(s, c, ids[1..], consumed, remaining, each, effects);
    } else if p.processed > 0 {
      var (id, e) := (ids[0], Get(effects, ids[0], Effect(0, [])));
      AskAllFrame(Leave(s, id), c, e.asked);
      CallBacksInOrder(CallBack(s, c, id, e.asked), c, ids[1..], SatU64(SatU64(consumed, each), e.weight),
                       remaining, each, effects);
      var able := Unchallenged(ids, s.challenged);
      assert able[..p.processed] == [id] + Unchallenged(ids[1..], s.challenged)[..p.processed - 1];
    }
  }

  /** All that may run have run, or the weight of the next callback does not fit. */
  predicate Exhausted(p: Progress, able: seq<RequestId>, remaining: nat, each: nat) {
    && p.ok && p.processed <= |able|
    && (p.processed < |able| ==>
          && able[p.processed] in p.s.requests
          && SatU64(SatU64(p.consumed, each), p.s.requests[able[p.processed]].weightLimit) > remaining)
  }

  ghost predicate Waiting(ids: seq<RequestId>, queue: seq<RequestId>, place: map<RequestId, Place>) {
    Distinct(ids) && forall i :: 0 <= i < |ids| ==> ids[i] in queue && At(place, ids[i], Queued)
  }

  lemma WaitingRest(ids: seq<RequestId>, queue: seq<RequestId>, place: map<RequestId, Place>,
                    place': map<RequestId, Place>)
    requires Waiting(ids, queue, place) && ids != []
    requires forall x: nat :: At(place, x, Queued) && x != ids[0] ==> At(place', x, Queued)
    ensures Waiting(ids[1..], queue, place')
  {
    forall i | 0 <= i < |ids[1..]| ensures ids[1..][i] in queue && At(place', ids[1..][i], Queued) {
      assert ids[1..][i] == ids[i + 1];
    }
  }

  /** One turn of the loop, on from what the rest of it does. */
  lemma OneTurn(s: Oracle, c: Config, ids: seq<RequestId>, consumed: nat, remaining: nat, each: nat,
                effects: map<RequestId, Effect>)
    requires ids != [] && ids[0] in s.requests && ids[0] in s.responses
    requires
      var (id, able) := (ids[0], Unchallenged(ids[1..], s.challenged));
      if id in s.challenged then
        Exhausted(CallBacks(s, c, ids[1..], consumed, remaining, each, effects), able, remaining, each)
      else SatU64(SatU64(consumed, each), s.requests[id].weightLimit) <= remaining ==>
          var e := Get(effects, id, Effect(0, []));
          Exhausted(CallBacks(CallBack(s, c, id, e.asked), c, ids[1..], SatU64(SatU64(consumed, each), e.weight),
                              remaining, each, effects), able, remaining, each)
    ensures Exhausted(CallBacks(s, c, ids, consumed, remaining, each, effects), Unchallenged(ids, s.challenged),
                      remaining, each)
  {
    var id := ids[0];
    if id in s.challenged {
    } else if SatU64(SatU64(consumed, each), s.requests[id].weightLimit) <= remaining {
      var e := Get(effects, id, Effect(0, []));
      OneMore(CallBacks(CallBack(s, c, id, e.asked), c, ids[1..], SatU64(SatU64(consumed, each), e.weight),
                        remaining, each, effects), id, Unchallenged(ids[1..], s.challenged), remaining, each);
    } else {
      assert Unchallenged(ids, s.challenged)[0] == id;
    }
  }

  /** As long as the ids are waiting, none misses its request or response, and the loop goes on as far as it can. */
  lemma {:induction false} CallBacksSucceed(s: Oracle, c: Config, queue: seq<RequestId>, ids: seq<RequestId>,
                                            consumed: nat, remaining: nat, each: nat, effects: map<RequestId, Effect>)
    requires Sound(s, c, queue) && Sensible(c) && Waiting(ids, queue, s.place)
    ensures
      var (p, able) := (CallBacks(s, c, ids, consumed, remaining, each, effects), Unchallenged(ids, s.challenged));
      Exhausted(p, able, remaining, each)
    decreases |ids|
  {
    if ids != [] {
      var (id, rest) := (ids[0], ids[1..]);
      assert id in queue && At(s.place, id, Queued);
      if id in s.challenged {
        WaitingRest(ids, queue, s.place, s.place);
        CallBacksSucceed(s, c, queue, rest, consumed, remaining, each, effects);
      } else if SatU64(SatU64(consumed, each), s.requests[id].weightLimit) <= remaining {
        var e := Get(effects, id, Effect(0, []));
        WaitingAfter(s, c, queue, ids, e.asked);
        CallBacksSucceed(CallBack(s, c, id, e.asked), c, queue, rest, SatU64(SatU64(consumed, each), e.weight),
                         remaining, each, effects);
      }
      OneTurn(s, c, ids, consumed, remaining, each, effects);
    }
  }

  lemma WaitingAfter(s: Oracle, c: Config, queue: seq<RequestId>, ids: seq<RequestId>, asked: seq<Nested>)
    requires Sound(s, c, queue) && Sensible(c) && Waiting(ids, queue, s.place) && ids != [] && ids[0] !in s.challenged
    ensures
      var t := CallBack(s, c, ids[0], asked);
      && ids[0] in s.responses && Sound(t, c, queue) && t.challenged == s.challenged
      && Waiting(ids[1..], queue, t.place)
  {
    assert ids[0] in queue && At(s.place, ids[0], Queued);
    CallBackKeeps(s, c, queue, ids[0], asked);
    WaitingRest(ids, queue, s.place, CallBack(s, c, ids[0], asked).place);
  }

  lemma OneMore(p: Progress, id: RequestId, able: seq<RequestId>, remaining: nat, each: nat)
    requires Exhausted(p, able, remaining, each)
    ensures Exhausted(Progress(p.s, p.processed + 1, p.consumed, p.ok), [id] + able, remaining, each)
  {
  }

  /** No callback uses more than the gas its request committed to. */
  ghost predicate WithinLimits(s: Oracle, ids: seq<RequestId>, effects: map<RequestId, Effect>) {
    forall i :: 0 <= i < |ids| && ids[i] in s.requests ==>
      Get(effects, ids[i], Effect(0, [])).weight <= s.requests[ids[i]].weightLimit
  }

  lemma LimitsKept(s: Oracle, c: Config, ids: seq<RequestId>, effects: map<RequestId, Effect>, asked: seq<Nested>)
    requires ids != [] && WithinLimits(s, ids, effects) && forall i :: 0 <= i < |ids| ==> ids[i] < s.nextId
    ensures WithinLimits(CallBack(s, c, ids[0], asked), ids[1..], effects)
  {
    var (t, rest) := (CallBack(s, c, ids[0], asked), ids[1..]);
    forall i | 0 <= i < |rest| && rest[i] in t.requests
        ensures Get(effects, rest[i], Effect(0, [])).weight <= t.requests[rest[i]].weightLimit {
      assert rest[i] == ids[i + 1];
      AskAllOld(Leave(s, ids[0]), c, asked, rest[i]);
    }
  }

  /** The reported weight stays within what was offered, or is just the fixed cost. */
  lemma {:induction false} CallBacksWithinBudget(s: Oracle, c: Config, ids: seq<RequestId>, consumed: nat,
                                                 remaining: nat, each: nat, effects: map<RequestId, Effect>)
    requires WithinLimits(s, ids, effects) && forall i :: 0 <= i < |ids| ==> ids[i] < s.nextId
    ensures CallBacks(s, c, ids, consumed, remaining, each, effects).consumed <= Max(consumed, remaining)
    decreases |ids|
  {
    if ids != [] {
      var id := ids[0];
      if id in s.challenged {
        CallBacksWithinBudget(s, c, ids[1..], consumed, remaining, each, effects);
      } else if id in s.requests && SatU64(SatU64(consumed, each), s.requests[id].weightLimit) <= remaining {
        var e := Get(effects, id, Effect(0, []));
        assert e.weight <= s.requests[id].weightLimit;
        LimitsKept(s, c, ids, effects, e.asked);
        AskAllFrame(Leave(s, id), c, e.asked);
        CallBacksWithinBudget(CallBack(s, c, id, e.asked), c, ids[1..], SatU64(SatU64(consumed, each), e.weight),
                              remaining, each, effects);
      }
    }
  }

  lemma ListedRest(queue: seq<RequestId>, n: nat, place: map<RequestId, Place>)
    requires Listed(queue, place) && n <= |queue|
    ensures Listed(queue[n..], place)
  {
  }

  lemma IdleKeeps(s: Oracle, c: Config, base: nat, remaining: nat, each: nat, effects: map<RequestId, Effect>)
    requires Inv(s, c) && Sensible(c)
    ensures Inv(Idle(s, c, base, remaining, each, effects), c)
  {
    CallBacksKeep(s, c, s.callbacks, s.callbacks, base, remaining, each, effects);
    var p := CallBacks(s, c, s.callbacks, base, remaining, each, effects);
    ListedRest(s.callbacks, p.processed, p.s.place);
  }

  // ---- Runs ----

  /** Every operation whatsoever keeps the invariant. */
  lemma StepKeeps(s: Oracle, c: Config, e: Event)
    requires Inv(s, c) && Sensible(c)
    ensures Inv(Step(s, c, e), c)
  {
    match e
    case Tick => BlockKeeps(s, c);
    case NewRequest(body, limit, time) =>
      if Ask(s, c, body, limit, time).Ok? { AskKeeps(s, c, Nested(body, limit, time), s.callbacks); }
    case BondRelayer(who, can) => if Enrol(s, c, who, can).Ok? { EnrolKeeps(s, c, who, can); }
    case UnbondRelayer(who) => if Resign(s, who).Ok? { ResignKeeps(s, c, who); }
    case SubmitResponse(id, r) => if Respond(s, c, id, r).Ok? { AcceptKeeps(s, c, id, r); }
    case IdleTime(base, remaining, each, effects) => IdleKeeps(s, c, base, remaining, each, effects);
    case _ => ChallengeKeeps(s, c, e);
  }

  lemma ChallengeKeeps(s: Oracle, c: Config, e: Event)
    requires Inv(s, c) && (e.BondChallenger? || e.UnbondChallenger? || e.ChallengeResponse? || e.SetDrift?)
    ensures Inv(Step(s, c, e), c)
  {
    match e
    case BondChallenger(who, can) => if EnrolChallenger(s, c, who, can).Ok? { EnrolChallengerKeeps(s, c, who, can); }
    case UnbondChallenger(who) => if ResignChallenger(s, who).Ok? { ResignChallengerKeeps(s, c, who); }
    case _ =>
  }

  lemma {:induction false} RunKeeps(s: Oracle, c: Config, es: seq<Event>)
    requires Inv(s, c) && Sensible(c)
    ensures Inv(Run(s, c, es), c)
    decreases |es|
  {
    if es != [] {
      StepKeeps(s, c, es[0]);
      RunKeeps(Step(s, c, es[0]), c, es[1..]);
    }
  }

  /** In every reachable state, challenges or not: the relayer of every response and the challenger of every
      challenge are bonded, and requests that are gone either lapsed or were called back once. */
  lemma RequestsAccountedFor(now: Block, drift: nat, c: Config, es: seq<Event>)
    requires Sensible(c)
    ensures
      var s := Run(Start(now, drift), c, es);
      && (forall id: nat :: id in s.responses ==> id in s.requests && s.Bond(s.responses[id].relayer) >= c.bond)
      && (forall id :: id in s.challenged ==> id in s.responses && Get(s.challengers, s.challenged[id], 0) >= c.bond)
      && Distinct(s.ran)
      && (forall id: nat :: id in s.ran ==> id < s.nextId && id !in s.requests && !At(s.place, id, Lapsed))
      && (forall id: nat :: id < s.nextId && id !in s.requests ==> id in s.ran || At(s.place, id, Lapsed))
  {
    RunKeeps(Start(now, drift), c, es);
  }
}
