/** Every oracle request is in exactly one place until it lapses or is called back, exactly when no
    challenged response stands in the callback queue before a callback that runs. */
module OracleQueue {
  import opened Prelude
  import opened OracleSpec
  import opened OracleSafety

  lemma AskInStep(s: Oracle, c: Config, n: Nested)
    requires Inv(s, c) && InStep(s.callbacks, s.place) && Ask(s, c, n.body, n.weightLimit, n.timestamp).Ok?
    ensures InStep(s.callbacks, Ask(s, c, n.body, n.weightLimit, n.timestamp).value.place)
  {
    assert s.nextId !in s.place;
    QueueSame(s.place, s.place[s.nextId := Expiring(s.now + c.period)], s.nextId, s.callbacks, s.ran);
  }

  lemma AcceptInStep(s: Oracle, c: Config, id: RequestId, r: Response)
    requires Inv(s, c) && InStep(s.callbacks, s.place) && id in s.requests && id !in s.responses
    ensures InStep(s.callbacks, Accept(s, c, id, r).place)
  {
    QueueSame(s.place, s.place[id := Contestable(s.now + c.period)], id, s.callbacks, s.ran);
  }

  /** No challenged id stands among the ids that will be dropped from the front of the queue. */
  predicate Tidy(s: Oracle, c: Config, base: nat, remaining: nat, each: nat, effects: map<RequestId, Effect>) {
    forall i :: 0 <= i < CallBacks(s, c, s.callbacks, base, remaining, each, effects).processed ==>
      s.callbacks[i] !in s.challenged
  }

  /** A callback that may run stands no earlier in the queue than among those that may run, and after each
      challenged id that comes up to there. */
  lemma {:induction false} UnchallengedAt(ids: seq<RequestId>, challenged: map<RequestId, AccountId>, m: nat)
      returns (j: nat)
    requires m < |Unchallenged(ids, challenged)|
    ensures m <= j < |ids| && ids[j] == Unchallenged(ids, challenged)[m]
    ensures forall i :: 0 <= i <= m && ids[i] in challenged ==> i < j
  {
    if ids[0] in challenged {
      j := UnchallengedAt(ids[1..], challenged, m);
      j := j + 1;
    } else if m == 0 {
      j := 0;
    } else {
      j := UnchallengedAt(ids[1..], challenged, m - 1);
      forall i | 0 <= i <= m && ids[i] in challenged ensures i < j + 1 { assert ids[i] == ids[1..][i - 1]; }
      j := j + 1;
    }
  }

  /** No callback that runs in this idle time has a challenged id before it in the queue. */
  predicate NoneOvertaken(s: Oracle, ran: seq<RequestId>) {
    forall i, j :: 0 <= i < j < |s.callbacks| && s.callbacks[i] in s.challenged ==> s.callbacks[j] !in ran
  }

  lemma TidyMeansInTurn(s: Oracle, c: Config, base: nat, remaining: nat, each: nat, effects: map<RequestId, Effect>)
    requires Distinct(s.callbacks)
    ensures
      var p := CallBacks(s, c, s.callbacks, base, remaining, each, effects);
      && |s.ran| <= |p.s.ran|
      && (Tidy(s, c, base, remaining, each, effects) <==> NoneOvertaken(s, p.s.ran[|s.ran|..]))
  {
    var (q, p) := (s.callbacks, CallBacks(s, c, s.callbacks, base, remaining, each, effects));
    var (n, able) := (p.processed, Unchallenged(s.callbacks, s.challenged));
    CallBacksInOrder(s, c, q, base, remaining, each, effects);
    assert p.s.ran[|s.ran|..] == able[..n];
    if Tidy(s, c, base, remaining, each, effects) {
      UnchallengedFront(q, s.challenged, n);
      forall i, j | 0 <= i < j < |q| && q[i] in s.challenged ensures q[j] !in able[..n] {
        assert forall k :: 0 <= k < n ==> able[..n][k] == q[k];
      }
    } else {
      var i :| 0 <= i < n && q[i] in s.challenged;
      var j := UnchallengedAt(q, s.challenged, n - 1);
      assert able[..n][n - 1] == q[j];
    }
  }

  /** A request that waits for a callback the queue no longer lists. */
  predicate Lost(s: Oracle, id: RequestId) { At(s.place, id, Queued) && id !in s.callbacks }

  /** Dropping from the queue exactly those that ran. */
  lemma QueueAdvances(q: seq<RequestId>, n: nat, ran: seq<RequestId>, place: map<RequestId, Place>,
                      place': map<RequestId, Place>)
    requires n <= |q| && Distinct(q) && InStep(q, place) && RanOk(ran, place)
    requires forall x: nat :: At(place', x, Queued) <==> At(place, x, Queued) && x !in ran + q[..n]
    ensures InStep(q[n..], place')
  {
    assert q == q[..n] + q[n..];
    forall x: nat ensures x in q[n..] <==> At(place', x, Queued) {
      assert x in q <==> x in q[..n] || x in q[n..];
    }
  }

  lemma TidyIdle(s: Oracle, c: Config, base: nat, remaining: nat, each: nat, effects: map<RequestId, Effect>)
    requires Inv(s, c) && InStep(s.callbacks, s.place) && Sensible(c) && Tidy(s, c, base, remaining, each, effects)
    ensures var t := Idle(s, c, base, remaining, each, effects); InStep(t.callbacks, t.place)
  {
    var (q, p) := (s.callbacks, CallBacks(s, c, s.callbacks, base, remaining, each, effects));
    CallBacksServe(s, c, q, q, base, remaining, each, effects);
    CallBacksInOrder(s, c, q, base, remaining, each, effects);
    UnchallengedFront(q, s.challenged, p.processed);
    QueueAdvances(q, p.processed, s.ran, s.place, p.s.place);
  }

  /** A challenged id at the front is dropped without having run. */
  lemma UntidyIdle(s: Oracle, c: Config, base: nat, remaining: nat, each: nat, effects: map<RequestId, Effect>, i: nat)
    requires Inv(s, c) && InStep(s.callbacks, s.place) && Sensible(c)
    requires
      i < CallBacks(s, c, s.callbacks, base, remaining, each, effects).processed && s.callbacks[i] in s.challenged
    ensures Lost(Idle(s, c, base, remaining, each, effects), s.callbacks[i])
  {
    var (q, p) := (s.callbacks, CallBacks(s, c, s.callbacks, base, remaining, each, effects));
    CallBacksServe(s, c, q, q, base, remaining, each, effects);
    CallBacksInOrder(s, c, q, base, remaining, each, effects);
    CallBacksSucceed(s, c, q, q, base, remaining, each, effects);
    UnchallengedMembers(q, s.challenged);
    assert q[i] in q && At(s.place, q[i], Queued) && q[i] !in s.ran;
    assert q[i] !in Unchallenged(q, s.challenged)[..p.processed];
  }

  /** Idle time leaves the queue in step if and only if it is tidy. */
  lemma IdleInStep(s: Oracle, c: Config, base: nat, remaining: nat, each: nat, effects: map<RequestId, Effect>)
    requires Inv(s, c) && InStep(s.callbacks, s.place) && Sensible(c)
    ensures
      var t := Idle(s, c, base, remaining, each, effects);
      InStep(t.callbacks, t.place) <==> Tidy(s, c, base, remaining, each, effects)
  {
    if Tidy(s, c, base, remaining, each, effects) {
      TidyIdle(s, c, base, remaining, each, effects);
    } else {
      var i :| 0 <= i < CallBacks(s, c, s.callbacks, base, remaining, each, effects).processed
        && s.callbacks[i] in s.challenged;
      UntidyIdle(s, c, base, remaining, each, effects, i);
    }
  }

  /** What is lost once is never found again. */
  lemma LostStays(s: Oracle, c: Config, e: Event, id: RequestId)
    requires Inv(s, c) && Sensible(c) && Lost(s, id)
    ensures Lost(Step(s, c, e), id)
  {
    match e
    case Tick => LostTick(s, c, id);
    case NewRequest(body, limit, time) => LostAsk(s, c, Nested(body, limit, time), id);
    case SubmitResponse(x, r) => if Respond(s, c, x, r).Ok? { LostAccept(s, c, x, r, id); }
    case IdleTime(base, remaining, each, effects) => LostIdle(s, c, base, remaining, each, effects, id);
    case _ => OthersFrame(s, c, e);
  }

  lemma LostAsk(s: Oracle, c: Config, n: Nested, id: RequestId)
    requires Inv(s, c) && Lost(s, id)
    ensures Lost(OrElse(Ask(s, c, n.body, n.weightLimit, n.timestamp), s), id)
  {
    assert id in s.place && id != s.nextId;
  }

  lemma LostAccept(s: Oracle, c: Config, x: RequestId, r: Response, id: RequestId)
    requires Inv(s, c) && Lost(s, id) && x in s.requests && x !in s.responses
    ensures Lost(Accept(s, c, x, r), id)
  {
    assert id in s.responses;
  }

  /** The other operations leave the queue and the places alone. */
  lemma OthersFrame(s: Oracle, c: Config, e: Event)
    requires !e.Tick? && !e.NewRequest? && !e.SubmitResponse? && !e.IdleTime?
    ensures Step(s, c, e).callbacks == s.callbacks && Step(s, c, e).place == s.place
  {
  }

  lemma LostTick(s: Oracle, c: Config, id: RequestId)
    requires Inv(s, c) && Lost(s, id)
    ensures Lost(NextBlock(s), id)
  {
    BlockPlaces(s, c);
    assert id !in s.ValidAt(s.now + 1);
  }

  lemma LostIdle(s: Oracle, c: Config, base: nat, remaining: nat, each: nat, effects: map<RequestId, Effect>,
                 id: RequestId)
    requires Inv(s, c) && Sensible(c) && Lost(s, id)
    ensures Lost(Idle(s, c, base, remaining, each, effects), id)
  {
    var q := s.callbacks;
    CallBacksServe(s, c, q, q, base, remaining, each, effects);
    CallBacksInOrder(s, c, q, base, remaining, each, effects);
    UnchallengedMembers(q, s.challenged);
    assert id !in s.ran;
  }

  // ---- Runs ----

  predicate TidyStep(s: Oracle, c: Config, e: Event) {
    e.IdleTime? ==> Tidy(s, c, e.base, e.remaining, e.each, e.effects)
  }

  /** A step that is tidy leaves the queue in step. */
  lemma StepInStep(s: Oracle, c: Config, e: Event)
    requires Inv(s, c) && InStep(s.callbacks, s.place) && Sensible(c) && TidyStep(s, c, e)
    ensures var t := Step(s, c, e); InStep(t.callbacks, t.place)
  {
    match e
    case Tick => BlockQueue(s, c);
    case NewRequest(body, limit, time) =>
      if Ask(s, c, body, limit, time).Ok? { AskInStep(s, c, Nested(body, limit, time)); }
    case SubmitResponse(id, r) => if Respond(s, c, id, r).Ok? { AcceptInStep(s, c, id, r); }
    case IdleTime(base, remaining, each, effects) => TidyIdle(s, c, base, remaining, each, effects);
    case _ => OthersFrame(s, c, e);
  }

  /** In all idle time of a run, no challenged id precedes a callback that runs. */
  ghost predicate TidyRun(s: Oracle, c: Config, es: seq<Event>)
    decreases |es|
  {
    es == [] || (TidyStep(s, c, es[0]) && TidyRun(Step(s, c, es[0]), c, es[1..]))
  }

  lemma {:induction false} LostForGood(s: Oracle, c: Config, es: seq<Event>, id: RequestId)
    requires Inv(s, c) && Sensible(c) && Lost(s, id)
    ensures Lost(Run(s, c, es), id)
    decreases |es|
  {
    if es != [] {
      StepKeeps(s, c, es[0]);
      LostStays(s, c, es[0], id);
      LostForGood(Step(s, c, es[0]), c, es[1..], id);
    }
  }

  lemma {:induction false} TidyRunInStep(s: Oracle, c: Config, es: seq<Event>)
    requires Inv(s, c) && InStep(s.callbacks, s.place) && Sensible(c) && TidyRun(s, c, es)
    ensures var t := Run(s, c, es); InStep(t.callbacks, t.place)
    decreases |es|
  {
    if es != [] {
      StepKeeps(s, c, es[0]);
      StepInStep(s, c, es[0]);
      TidyRunInStep(Step(s, c, es[0]), c, es[1..]);
    }
  }

  lemma UntidyStepLoses(s: Oracle, c: Config, e: Event) returns (id: RequestId)
    requires Inv(s, c) && InStep(s.callbacks, s.place) && Sensible(c) && !TidyStep(s, c, e)
    ensures Lost(Step(s, c, e), id)
  {
    var i :| 0 <= i < CallBacks(s, c, s.callbacks, e.base, e.remaining, e.each, e.effects).processed
      && s.callbacks[i] in s.challenged;
    UntidyIdle(s, c, e.base, e.remaining, e.each, e.effects, i);
    id := s.callbacks[i];
  }

  lemma {:induction false} UntidyRunLoses(s: Oracle, c: Config, es: seq<Event>) returns (id: RequestId)
    requires Inv(s, c) && InStep(s.callbacks, s.place) && Sensible(c) && !TidyRun(s, c, es)
    ensures Lost(Run(s, c, es), id)
    decreases |es|
  {
    var (t, rest) := (Step(s, c, es[0]), es[1..]);
    StepKeeps(s, c, es[0]);
    if TidyStep(s, c, es[0]) {
      StepInStep(s, c, es[0]);
      id := UntidyRunLoses(t, c, rest);
    } else {
      id := UntidyStepLoses(s, c, es[0]);
      LostForGood(t, c, rest, id);
    }
  }

  /** Over any run, the callback queue lists exactly the requests waiting for their callback if and only if
      in no idle time a challenged id preceded a callback that ran. */
  lemma RunInStep(s: Oracle, c: Config, es: seq<Event>)
    requires Inv(s, c) && InStep(s.callbacks, s.place) && Sensible(c)
    ensures var t := Run(s, c, es); InStep(t.callbacks, t.place) <==> TidyRun(s, c, es)
  {
    if TidyRun(s, c, es) {
      TidyRunInStep(s, c, es);
    } else {
      var id := UntidyRunLoses(s, c, es);
    }
  }

  lemma {:induction false} CallBacksChallenges(s: Oracle, c: Config, ids: seq<RequestId>, consumed: nat, remaining: nat,
                                            each: nat, effects: map<RequestId, Effect>)
    ensures CallBacks(s, c, ids, consumed, remaining, each, effects).s.challenged == s.challenged
    decreases |ids|
  {
    if ids != [] {
      if ids[0] in s.challenged {
        CallBacksChallenges(s, c, ids[1..], consumed, remaining, each, effects);
      } else {
        var e := Get(effects, ids[0], Effect(0, []));
        AskAllFrame(Leave(s, ids[0]), c, e.asked);
        CallBacksChallenges(CallBack(s, c, ids[0], e.asked), c, ids[1..], SatU64(SatU64(consumed, each), e.weight),
                         remaining, each, effects);
      }
    }
  }

  lemma UnchallengedStep(s: Oracle, c: Config, e: Event)
    requires s.challenged == map[] && !e.ChallengeResponse?
    ensures Step(s, c, e).challenged == map[] && TidyStep(s, c, e)
  {
    match e
    case IdleTime(base, remaining, each, effects) =>
      CallBacksChallenges(s, c, s.callbacks, base, remaining, each, effects);
    case _ =>
  }

  /** A run without challenges is tidy. */
  lemma {:induction false} UnchallengedRunTidy(s: Oracle, c: Config, es: seq<Event>)
    requires s.challenged == map[] && forall i :: 0 <= i < |es| ==> !es[i].ChallengeResponse?
    ensures TidyRun(s, c, es)
    decreases |es|
  {
    if es != [] {
      UnchallengedStep(s, c, es[0]);
      UnchallengedRunTidy(Step(s, c, es[0]), c, es[1..]);
    }
  }

  predicate AwaitsExpiry(s: Oracle, id: RequestId) {
    id in s.requests && id !in s.responses && s.now < s.requests[id].expiry && id in s.ExpiredAt(s.requests[id].expiry)
  }

  predicate AwaitsValidity(s: Oracle, id: RequestId) {
    id in s.responses && exists b: Block :: b in s.validAt && s.now < b && id in s.validAt[b]
  }

  predicate AwaitsCallback(s: Oracle, id: RequestId) { id in s.responses && id in s.callbacks }

  predicate ExactlyOne(a: bool, b: bool, c: bool) { (a || b || c) && !(a && b) && !(a && c) && !(b && c) }

  predicate InOnePlace(s: Oracle, id: RequestId) {
    ExactlyOne(AwaitsExpiry(s, id), AwaitsValidity(s, id), AwaitsCallback(s, id))
  }

  ghost predicate AllInOnePlace(s: Oracle) { forall id: nat :: id in s.requests ==> InOnePlace(s, id) }

  /** Every live request is in exactly one of three places if and only if the run was tidy. */
  lemma RequestsInOnePlace(now: Block, drift: nat, c: Config, es: seq<Event>)
    requires Sensible(c)
    ensures AllInOnePlace(Run(Start(now, drift), c, es)) <==> TidyRun(Start(now, drift), c, es)
  {
    var (start, s) := (Start(now, drift), Run(Start(now, drift), c, es));
    RunKeeps(start, c, es);
    if TidyRun(start, c, es) {
      TidyRunInStep(start, c, es);
      InStepInPlace(s, c);
    } else {
      var id := UntidyRunLoses(start, c, es);
      LostIsNowhere(s, c, id);
    }
  }

  lemma InStepInPlace(s: Oracle, c: Config)
    requires Inv(s, c) && InStep(s.callbacks, s.place)
    ensures AllInOnePlace(s)
  {
    forall id: nat | id in s.requests ensures InOnePlace(s, id) { OnePlace(s, c, id); }
  }

  lemma LostIsNowhere(s: Oracle, c: Config, id: RequestId)
    requires Inv(s, c) && Lost(s, id)
    ensures !AllInOnePlace(s)
  {
    NotContestable(s, c, id);
    assert id in s.requests && !InOnePlace(s, id);
  }

  lemma OnePlace(s: Oracle, c: Config, id: RequestId)
    requires Inv(s, c) && InStep(s.callbacks, s.place) && id in s.requests
    ensures InOnePlace(s, id)
  {
    match s.place[id]
    case Expiring(b) => assert At(s.place, id, EXPIRY(b)) && id in Get(s.expiredAt, b, []);
    case Contestable(b) => assert At(s.place, id, VALIDITY(b)) && id in Get(s.validAt, b, []);
    case Queued => NotContestable(s, c, id);
  }

  lemma NotContestable(s: Oracle, c: Config, id: RequestId)
    requires Inv(s, c) && At(s.place, id, Queued)
    ensures !AwaitsValidity(s, id)
  {
    forall b: Block | b in s.validAt ensures id !in s.validAt[b] {
      assert id in Get(s.validAt, b, []) <==> At(s.place, id, VALIDITY(b)) && b in s.validAt;
    }
  }

  // ---- A challenged response at the front ----

  const SMALL := Config(1, 1, 2, 1)

  const ASKED := Request(0, 0, 0, 1)

  const ANSWER := Response(8, None, 0, 0)

  /** Two requests are answered in one block, and the first answer is challenged before idle time comes. */
  const CONTESTED: seq<Event> := [
    BondChallenger(7, true), BondRelayer(8, true), NewRequest(0, 0, 0), NewRequest(0, 0, 0),
    SubmitResponse(0, ANSWER), SubmitResponse(1, ANSWER), Tick, ChallengeResponse(7, 0), IdleTime(0, 0, 0, map[])]

  /** The state after `k` of these events. */
  function Stage(k: nat): Oracle {
    Oracle(
      if k < 7 then 0 else 1,
      if k < 3 then 0 else if k == 3 then 1 else 2,
      if k < 3 then map[] else if k == 3 || k == 9 then map[0 := ASKED] else map[0 := ASKED, 1 := ASKED],
      if k < 5 then map[] else if k == 5 || k == 9 then map[0 := ANSWER] else map[0 := ANSWER, 1 := ANSWER],
      if k < 5 || 7 <= k then map[] else if k == 5 then map[1 := [0]] else map[1 := [0, 1]],
      if k < 3 || 7 <= k then map[] else
        map[1 := if k == 3 then [0] else if k == 4 then [0, 1] else if k == 5 then [1] else []],
      if k < 7 then [] else if k < 9 then [0, 1] else [1],
      if k < 2 then map[] else map[8 := 1],
      if k < 1 then map[] else map[7 := 1],
      if k < 8 then map[] else map[0 := 7],
      if k < 3 || 7 <= k then 0 else if k == 3 then 1 else 2,
      0,
      if k < 3 then map[] else if k == 3 then map[0 := Expiring(1)]
      else if k == 4 then map[0 := Expiring(1), 1 := Expiring(1)]
      else if k == 5 then map[0 := Contestable(1), 1 := Expiring(1)]
      else if k == 6 then map[0 := Contestable(1), 1 := Contestable(1)]
      else if k < 9 then map[0 := Queued, 1 := Queued] else map[0 := Queued, 1 := CalledBack],
      if k < 9 then [] else [1])
  }

  lemma Bonding(k: nat)
    requires k < 2
    ensures Step(Stage(k), SMALL, CONTESTED[k]) == Stage(k + 1)
  {
  }

  lemma Asking(k: nat)
    requires 2 <= k < 4
    ensures Step(Stage(k), SMALL, CONTESTED[k]) == Stage(k + 1)
  {
    var (s, t) := (Stage(k), Stage(k + 1));
    assert 7 in s.challengers;
    assert t.requests == s.requests[s.nextId := ASKED];
    assert s.ExpiredAt(1) + [s.nextId] == t.expiredAt[1];
    assert t.expiredAt == s.expiredAt[1 := s.ExpiredAt(1) + [s.nextId]];
    assert t.place == s.place[s.nextId := Expiring(1)];
  }

  lemma Answering(k: nat)
    requires 4 <= k < 6
    ensures Step(Stage(k), SMALL, CONTESTED[k]) == Stage(k + 1)
  {
    var (s, t, id) := (Stage(k), Stage(k + 1), k - 4);
    assert Without([1], 1) == [] && Without([0, 1], 0) == [1];
    assert t.responses == s.responses[id := ANSWER];
    assert s.ValidAt(1) + [id] == t.validAt[1];
    assert t.validAt == s.validAt[1 := s.ValidAt(1) + [id]];
    assert t.expiredAt == s.expiredAt[1 := Without(s.ExpiredAt(1), id)];
    assert t.place == s.place[id := Contestable(1)];
  }

  lemma Queueing(k: nat)
    requires k == 6
    ensures Step(Stage(k), SMALL, CONTESTED[k]) == Stage(k + 1)
  {
    var (s, t) := (Stage(k), Stage(k + 1));
    assert s.ValidAt(1) == [0, 1] && s.ExpiredAt(1) == [];
    assert t.requests == s.requests - Elements<RequestId>([]);
    assert t.validAt == s.validAt - {1} && t.expiredAt == s.expiredAt - {1};
    assert t.place == Move(Move(s.place, [0, 1], Queued), [], Lapsed);
  }

  lemma Challenging(k: nat)
    requires k == 7
    ensures Step(Stage(k), SMALL, CONTESTED[k]) == Stage(k + 1)
  {
  }

  lemma CallingBack(k: nat)
    requires k == 8
    ensures Step(Stage(k), SMALL, CONTESTED[k]) == Stage(k + 1)
  {
    var (s, none) := (Stage(k), map[]);
    var t := Leave(s, 1);
    assert s.callbacks[1..] == [1] && [1][1..] == [];
    assert CallBack(s, SMALL, 1, []) == t;
    assert CallBacks(t, SMALL, [], 0, 0, 0, none) == Progress(t, 0, 0, true);
    assert CallBacks(s, SMALL, [1], 0, 0, 0, none) == Progress(t, 1, 0, true);
    assert t.requests == map[0 := ASKED] && t.responses == map[0 := ANSWER];
    assert t.place == map[0 := Queued, 1 := CalledBack];
  }

  lemma {:induction false} StagesRun(k: nat)
    requires k <= 9
    ensures Run(Stage(k), SMALL, CONTESTED[k..]) == Stage(9)
    decreases 9 - k
  {
    if k < 9 {
      if k < 2 { Bonding(k); }
      else if k < 4 { Asking(k); }
      else if k < 6 { Answering(k); }
      else if k == 6 { Queueing(k); }
      else if k == 7 { Challenging(k); }
      else { CallingBack(k); }
      assert CONTESTED[k..][1..] == CONTESTED[k + 1..];
      StagesRun(k + 1);
    }
  }

  /** Such a run: request 0 is lost, request 1 has run and is still queued, and the next idle time misses its
      request. */
  lemma ChallengedCallbackLost(base: nat, remaining: nat, each: nat, effects: map<RequestId, Effect>)
    ensures
      var s := Run(Start(0, 0), SMALL, CONTESTED);
      && Lost(s, 0) && 0 in s.requests && 0 in s.responses
      && s.callbacks == [1] && s.ran == [1] && 1 !in s.requests
      && !CallBacks(s, SMALL, s.callbacks, base, remaining, each, effects).ok
  {
    StagesRun(0);
    assert CONTESTED[0..] == CONTESTED;
    assert Stage(0) == Start(0, 0);
  }
}
