/** Every eth_call is resolved once, by the n-th counted vote at the latest, and never while it could
    still reach consensus; and when a consensus has distinct notaries behind it. */
module EthCallSafety {
  import opened Prelude
  import opened MapSum
  import opened EthThreshold
  import opened EthCallSpec
  import opened EthCallBallots

  /** The stored tally stays a recount of the stored votes exactly when the notary had not voted. */
  lemma TallyIsRecount(s: Calls, id: CallId, notary: Notary, result: CallResult)
    requires s.Tally(id) == Recount(s.Votes(id))
    ensures
      var t := Notarize(s, id, notary, result, Undecided);
      t.Tally(id) == Recount(t.Votes(id)) <==> notary !in s.Votes(id)
  {
    if notary in s.Votes(id) {
      RepeatedVote(s.Votes(id), notary, result);
    } else {
      FreshVote(s.Votes(id), notary, result);
    }
  }

  // ---- Invariant ----

  /** The queue lists the active calls once each, and nothing is kept about any other call. */
  ghost predicate Tidy(s: Calls) {
    && Distinct(s.queue)
    && (forall id :: id in s.queue <==> id in s.info)
    && (forall id :: id in s.info ==> id < s.nextId)
    && (forall id :: id in s.votes || id in s.tallies ==> id in s.info)
  }

  predicate Answered(s: Calls, id: CallId) { exists i :: 0 <= i < |s.callbacks| && s.callbacks[i].id == id }

  /** Each call handed out is either active or answered, and no call is answered twice. */
  ghost predicate OneAnswer(s: Calls) {
    && (forall id: nat :: id < s.nextId ==> (id in s.info) != Answered(s, id))
    && (forall i :: 0 <= i < |s.callbacks| ==> s.callbacks[i].id < s.nextId)
    && (forall i, j :: 0 <= i < j < |s.callbacks| ==> s.callbacks[i].id != s.callbacks[j].id)
  }

  /** Fewer than `n` votes have been counted (none, if there are no validators), the tally counts them
      all, no result has won, and some result still can. */
  ghost predicate Open(n: nat, votes: map<Notary, CallResult>, tally: map<CallResult, nat>, bs: seq<Ballot>) {
    && Tallied(tally, bs) && votes == LastVotes(bs)
    && |bs| < Max(n, 1) && !HasConsensus(tally, n)
    && (bs != [] ==> Winnable(bs, n))
  }

  ghost predicate AllOpen(s: Calls, n: nat) {
    && (forall id: nat :: id in s.info ==> Open(n, s.Votes(id), s.Tally(id), s.Ballots(id)))
    && (forall id: nat :: |s.Ballots(id)| <= Max(n, 1) && (s.nextId <= id ==> s.Ballots(id) == []))
  }

  ghost predicate Inv(s: Calls, n: nat) { Tidy(s) && OneAnswer(s) && AllOpen(s, n) }

  lemma {:induction false} RemoveFirstMembers(queue: seq<CallId>, id: CallId)
    requires Distinct(queue)
    ensures Distinct(RemoveFirst(queue, id))
    ensures forall x :: x in RemoveFirst(queue, id) <==> x in queue && x != id
  {
    if queue != [] {
      assert queue == [queue[0]] + queue[1..];
      if queue[0] == id {
        assert forall x :: x in queue[1..] ==> x != id;
      } else {
        RemoveFirstMembers(queue[1..], id);
        assert queue[0] !in queue[1..];
      }
    }
  }

  lemma AskTidy(s: Calls, request: Request)
    requires Tidy(s)
    ensures Tidy(AskFor(s, request))
  {
    var t := AskFor(s, request);
    forall i, j | 0 <= i < j < |t.queue| ensures t.queue[i] != t.queue[j] {
      assert s.queue[i] in s.queue;
    }
  }

  lemma AskOneAnswer(s: Calls, request: Request)
    requires OneAnswer(s)
    ensures OneAnswer(AskFor(s, request))
  {
    var t := AskFor(s, request);
    assert forall id: nat :: Answered(t, id) <==> Answered(s, id);
    assert !Answered(s, s.nextId);
  }

  lemma NoBallotsOpen(n: nat)
    ensures Open(n, map[], map[], [])
  {
  }

  lemma AskKeeps(s: Calls, n: nat, request: Request)
    requires Inv(s, n)
    ensures Inv(AskFor(s, request), n)
  {
    var t := AskFor(s, request);
    AskTidy(s, request);
    AskOneAnswer(s, request);
    NoBallotsOpen(n);
    assert s.nextId !in s.info;
    forall id: nat | id in t.info ensures Open(n, t.Votes(id), t.Tally(id), t.Ballots(id)) {
      if id != s.nextId { assert Open(n, s.Votes(id), s.Tally(id), s.Ballots(id)); }
    }
    assert forall id: nat :: t.Ballots(id) == s.Ballots(id);
  }

  lemma AnsweredAfter(s: Calls, t: Calls, c: Callback)
    requires t.callbacks == s.callbacks + [c]
    ensures forall x: nat :: Answered(t, x) <==> Answered(s, x) || x == c.id
  {
    assert t.callbacks[|s.callbacks|] == c;
    forall x: nat ensures Answered(t, x) <==> Answered(s, x) || x == c.id {
      if Answered(s, x) {
        var i :| 0 <= i < |s.callbacks| && s.callbacks[i].id == x;
        assert t.callbacks[i].id == x;
      }
    }
  }

  lemma DeliverTidy(s: Calls, id: CallId, r: CallResult)
    requires Distinct(s.queue)
    requires forall x :: x in s.queue <==> x in s.info
    requires forall x :: x in s.info ==> x < s.nextId
    requires forall x :: x in s.votes || x in s.tallies ==> x in s.info
    ensures Tidy(Deliver(s, id, r))
  {
    RemoveFirstMembers(s.queue, id);
  }

  lemma DeliverOneAnswer(s: Calls, id: CallId, r: CallResult)
    requires OneAnswer(s) && id in s.info && id < s.nextId
    ensures OneAnswer(Deliver(s, id, r))
  {
    var t := Deliver(s, id, r);
    AnsweredAfter(s, t, CallbackFor(id, r));
    forall i | 0 <= i < |s.callbacks| ensures s.callbacks[i].id != id {
      assert s.callbacks[i].id == id ==> Answered(s, id);
    }
  }

  // ---- Votes ----

  /** The ballots of a call after this vote. */
  function BallotsAfter(s: Calls, e: Event): seq<Ballot>
    requires e.Vote?
  {
    s.Ballots(e.id) + [Ballot(e.notary, e.result)]
  }

  /** What the vote is decided on counts all ballots, at most `n` of them. */
  lemma VoteCounted(s: Calls, n: nat, e: Event)
    requires e.Vote? && Open(n, s.Votes(e.id), s.Tally(e.id), s.Ballots(e.id))
    ensures
      var bs := BallotsAfter(s, e);
      && Tallied(Bump(s.Tally(e.id), e.result), bs) && |bs| <= Max(n, 1)
      && s.Votes(e.id)[e.notary := e.result] == LastVotes(bs)
  {
    TallyFollows(s.Tally(e.id), s.Ballots(e.id), Ballot(e.notary, e.result));
    CountLast(s.Ballots(e.id), Ballot(e.notary, e.result), e.result);
  }

  /** A vote that leaves the call undecided leaves it short of a full count, and winnable. */
  lemma UndecidedOpen(tally: map<CallResult, nat>, bs: seq<Ballot>, n: nat)
    requires Tallied(tally, bs) && bs != [] && |bs| <= Max(n, 1) && Decides(tally, n, Undecided)
    ensures Open(n, LastVotes(bs), tally, bs)
  {
    if 0 < n { CanReachIsExact(tally, bs, n); }
  }

  lemma Elsewhere<K, V>(m: map<K, V>, k: K, v: V, x: K, d: V)
    requires x != k
    ensures Get(m[k := v], x, d) == Get(m, x, d) && Get(m - {k}, x, d) == Get(m, x, d)
      && Get(m[k := v] - {k}, x, d) == Get(m, x, d)
  {
  }

  /** After a vote, other calls are as they were. */
  lemma OthersUntouched(s: Calls, e: Event, x: CallId)
    requires e.Vote? && x != e.id
    ensures
      var t := Notarize(s, e.id, e.notary, e.result, e.outcome);
      && t.Votes(x) == s.Votes(x) && t.Tally(x) == s.Tally(x) && t.Ballots(x) == s.Ballots(x)
      && (x in t.info <==> x in s.info)
  {
    Elsewhere(s.votes, e.id, s.Votes(e.id)[e.notary := e.result], x, map[]);
    Elsewhere(s.tallies, e.id, Bump(s.Tally(e.id), e.result), x, map[]);
    Elsewhere(s.ballots, e.id, BallotsAfter(s, e), x, []);
  }

  lemma VoteBallots(s: Calls, e: Event)
    requires e.Vote?
    ensures
      var t := Notarize(s, e.id, e.notary, e.result, e.outcome);
      && t.Ballots(e.id) == BallotsAfter(s, e) && t.nextId == s.nextId
      && (e.outcome.Undecided? ==>
            && t.Votes(e.id) == s.Votes(e.id)[e.notary := e.result] && t.Tally(e.id) == Bump(s.Tally(e.id), e.result)
            && t.info == s.info)
      && (!e.outcome.Undecided? ==> e.id !in t.info)
  {
  }

  lemma VoteAllOpen(s: Calls, n: nat, e: Event)
    requires Inv(s, n) && e.Vote? && e.id in s.info && Enabled(s, n, e)
    ensures AllOpen(Notarize(s, e.id, e.notary, e.result, e.outcome), n)
  {
    var t := Notarize(s, e.id, e.notary, e.result, e.outcome);
    assert Open(n, s.Votes(e.id), s.Tally(e.id), s.Ballots(e.id));
    VoteCounted(s, n, e);
    VoteBallots(s, e);
    forall x: nat ensures
      && (x in t.info ==> Open(n, t.Votes(x), t.Tally(x), t.Ballots(x)))
      && |t.Ballots(x)| <= Max(n, 1) && (t.nextId <= x ==> t.Ballots(x) == [])
    {
      if x != e.id {
        OthersUntouched(s, e, x);
        assert x in s.info ==> Open(n, s.Votes(x), s.Tally(x), s.Ballots(x));
      } else if e.outcome.Undecided? {
        UndecidedOpen(Bump(s.Tally(e.id), e.result), BallotsAfter(s, e), n);
      }
    }
  }

  lemma VoteTidy(s: Calls, e: Event)
    requires Tidy(s) && OneAnswer(s) && e.Vote? && e.id in s.info
    ensures var t := Notarize(s, e.id, e.notary, e.result, e.outcome); Tidy(t) && OneAnswer(t)
  {
    var v := Record(s, e.id, e.notary, e.result);
    assert forall x: nat :: Answered(v, x) <==> Answered(s, x);
    match e.outcome
    case Consensus(r) => DeliverTidy(v, e.id, r); DeliverOneAnswer(v, e.id, r);
    case Hopeless => DeliverTidy(v, e.id, e.result); DeliverOneAnswer(v, e.id, e.result);
    case Undecided =>
      var t := Notarize(s, e.id, e.notary, e.result, e.outcome);
      assert forall x: nat :: Answered(t, x) <==> Answered(s, x);
  }

  lemma StepKeeps(s: Calls, n: nat, e: Event)
    requires Inv(s, n) && Enabled(s, n, e)
    ensures Inv(Step(s, e), n)
  {
    match e
    case Ask(request) => AskKeeps(s, n, request);
    case Vote(id, _, _, _) =>
      if id in s.info {
        VoteTidy(s, e);
        VoteAllOpen(s, n, e);
      }
  }

  lemma {:induction false} RunKeeps(s: Calls, n: nat, es: seq<Event>)
    requires Inv(s, n) && EnabledRun(s, n, es)
    ensures Inv(Run(s, es), n)
    decreases |es|
  {
    if es != [] {
      StepKeeps(s, n, es[0]);
      RunKeeps(Step(s, es[0]), n, es[1..]);
    }
  }

  lemma StartSound(n: nat)
    ensures Inv(START, n)
  {
  }

  /** Over any run, with any votes by anyone: every call is answered exactly once or still active; no
      call ever counts more than `n` votes, and an active one fewer than `n`; its tally counts every
      vote, and it could still reach consensus; nothing is kept about answered calls. */
  lemma EveryCallAnsweredOnce(n: nat, es: seq<Event>)
    requires EnabledRun(START, n, es)
    ensures
      var s := Run(START, es);
      && (forall id: nat :: id < s.nextId ==> (id in s.info) != Answered(s, id))
      && (forall i, j :: 0 <= i < j < |s.callbacks| ==> s.callbacks[i].id != s.callbacks[j].id)
      && (forall id: nat :: |s.Ballots(id)| <= Max(n, 1))
      && (forall id :: id in s.info ==> |s.Ballots(id)| < Max(n, 1) && Tallied(s.Tally(id), s.Ballots(id)))
      && (forall id :: id in s.info && s.Ballots(id) != [] ==> Winnable(s.Ballots(id), n))
      && (forall id :: Answered(s, id) ==> id !in s.info && id !in s.votes && id !in s.tallies && id !in s.queue)
  {
    StartSound(n);
    RunKeeps(START, n, es);
    var s := Run(START, es);
    forall id | Answered(s, id) ensures id !in s.info && id !in s.votes && id !in s.tallies && id !in s.queue {
      var i :| 0 <= i < |s.callbacks| && s.callbacks[i].id == id;
      assert s.callbacks[i].id < s.nextId;
    }
    forall id | id in s.info
      ensures |s.Ballots(id)| < Max(n, 1) && Tallied(s.Tally(id), s.Ballots(id))
        && (s.Ballots(id) != [] ==> Winnable(s.Ballots(id), n))
    {
      assert Open(n, s.Votes(id), s.Tally(id), s.Ballots(id));
    }
  }

  // ---- What is delivered ----

  lemma ReachesInTally(tally: map<CallResult, nat>, bs: seq<Ballot>, n: nat, r: CallResult)
    requires Tallied(tally, bs)
    ensures Reaches(Count(bs, r), n) <==> r in tally && Reaches(tally[r], n)
  {
    assert Get(tally, r, 0) == Count(bs, r);
    assert Percent(0, n) == 0;
  }

  lemma WinnerIs(tally: map<CallResult, nat>, bs: seq<Ballot>, n: nat, o: Outcome, r: CallResult)
    requires Tallied(tally, bs) && |bs| <= Max(n, 1) && Decides(tally, n, o)
    ensures Reaches(Count(bs, r), n) <==> o == Consensus(r)
  {
    ReachesInTally(tally, bs, n, r);
    if o.Consensus? && r in tally && Reaches(tally[r], n) { OneWinner(tally, n, r, o.result); }
  }

  lemma HopelessIs(tally: map<CallResult, nat>, bs: seq<Ballot>, n: nat, o: Outcome)
    requires Tallied(tally, bs) && bs != [] && |bs| <= n && Decides(tally, n, o)
    ensures o.Hopeless? <==> !Winnable(bs, n)
  {
    CanReachIsExact(tally, bs, n);
    if HasConsensus(tally, n) { WinnerCanWin(tally, bs, n); }
  }

  /** In any reachable state a vote has one possible outcome: consensus on exactly the result whose
      counted votes reach the threshold, and giving up exactly when no way of casting the outstanding
      votes could bring any result there. */
  lemma VoteDecides(s: Calls, n: nat, e: Event)
    requires Inv(s, n) && Enabled(s, n, e) && e.Vote? && e.id in s.info
    ensures 0 < n ==> (e.outcome.Hopeless? <==> !Winnable(BallotsAfter(s, e), n))
    ensures forall r :: Reaches(Count(BallotsAfter(s, e), r), n) <==> e.outcome == Consensus(r)
  {
    var (bs, tally) := (BallotsAfter(s, e), Bump(s.Tally(e.id), e.result));
    assert Open(n, s.Votes(e.id), s.Tally(e.id), s.Ballots(e.id));
    VoteCounted(s, n, e);
    forall r ensures Reaches(Count(bs, r), n) <==> e.outcome == Consensus(r) {
      WinnerIs(tally, bs, n, e.outcome, r);
    }
    if 0 < n { HopelessIs(tally, bs, n, e.outcome); }
  }

  lemma WinnerCanWin(tally: map<CallResult, nat>, bs: seq<Ballot>, n: nat)
    requires Tallied(tally, bs) && HasConsensus(tally, n)
    ensures CanReach(tally, n)
  {
    var r :| r in tally && Reaches(tally[r], n);
    ReachesMonotone(tally[r], tally[r] + SatSub(n, Sum(tally)), n);
  }

  /** The first vote to bring a count to the threshold brings it there from just below. */
  lemma WinsByOne(s: Calls, n: nat, e: Event)
    requires Inv(s, n) && Enabled(s, n, e) && e.Vote? && e.id in s.info && e.outcome.Consensus?
    ensures e.outcome.result == e.result
    ensures Reaches(Count(BallotsAfter(s, e), e.result), n) && !Reaches(Count(BallotsAfter(s, e), e.result) - 1, n)
  {
    var (bs, r) := (s.Ballots(e.id), e.outcome.result);
    assert Open(n, s.Votes(e.id), s.Tally(e.id), bs);
    VoteDecides(s, n, e);
    assert Reaches(Count(BallotsAfter(s, e), r), n);
    CountLast(bs, Ballot(e.notary, e.result), r);
    ReachesInTally(s.Tally(e.id), bs, n, r);
  }

  /** A consensus is delivered once enough votes are counted. It has the threshold of distinct notaries
      behind it if and only if nobody who voted for the result on this call has voted again. */
  lemma ConsensusIsGenuine(s: Calls, n: nat, e: Event)
    requires Inv(s, n) && Enabled(s, n, e) && e.Vote? && e.id in s.info && e.outcome.Consensus?
    ensures
      var votes := s.Votes(e.id)[e.notary := e.result];
      Reaches(|Voters(votes, e.outcome.result)|, n) <==> NoSecondThoughts(BallotsAfter(s, e), e.outcome.result)
  {
    var bs := BallotsAfter(s, e);
    assert Open(n, s.Votes(e.id), s.Tally(e.id), s.Ballots(e.id));
    VoteCounted(s, n, e);
    WinsByOne(s, n, e);
    DistinctSupport(bs, e.result);
    var support := |Voters(LastVotes(bs), e.result)|;
    if Reaches(support, n) && support < Count(bs, e.result) {
      ReachesMonotone(support, Count(bs, e.result) - 1, n);
    }
  }

  /** The same over any run from the start. */
  lemma GenuineOverRuns(n: nat, es: seq<Event>, e: Event)
    requires EnabledRun(START, n, es) && Enabled(Run(START, es), n, e)
    requires e.Vote? && e.id in Run(START, es).info && e.outcome.Consensus?
    ensures
      var s := Run(START, es);
      var votes := s.Votes(e.id)[e.notary := e.result];
      Reaches(|Voters(votes, e.outcome.result)|, n) <==> NoSecondThoughts(BallotsAfter(s, e), e.outcome.result)
  {
    StartSound(n);
    RunKeeps(START, n, es);
    ConsensusIsGenuine(Run(START, es), n, e);
  }

  /** Subscribers can tell the result from the callback, except among the internal failures. */
  lemma CallbackTellsResult(id: CallId, r: CallResult, q: CallResult)
    ensures CallbackFor(id, r).id == id
    ensures CallbackFor(id, r).Complete? <==> r.Returned?
    ensures CallbackFor(id, r) == CallbackFor(id, q) <==>
      r == q || (CallbackFor(id, r) == Failed(id, Internal) && CallbackFor(id, q) == Failed(id, Internal))
  {
  }

  // ---- A notary who votes twice ----

  const REQUEST := Request(0, [], 0, 0, 0, 0)
  const ANSWER := Returned(1, 1, 1)
  const ASKED := AskFor(START, REQUEST)
  const ONCE := Notarize(ASKED, 0, 0, ANSWER, Undecided)

  const SAME_VOTE_TWICE: seq<Event> := [
    Ask(REQUEST), Vote(0, 0, ANSWER, Undecided), Vote(0, 0, ANSWER, Consensus(ANSWER))]

  lemma OneAndTwo()
    ensures Decides(map[ANSWER := 1], 3, Undecided) && Decides(map[ANSWER := 2], 3, Consensus(ANSWER))
  {
    SumZero<CallResult>(map[]);
    BumpSum(map[], ANSWER);
    assert Bump(map[], ANSWER) == map[ANSWER := 1];
    assert ANSWER in map[ANSWER := 1] && Reaches(3, 3) && Reaches(2, 3) && !Reaches(1, 3);
  }

  /** With three validators, one notary voting twice is a consensus: the data is delivered with a
      single notary behind it. */
  lemma OneNotaryMakesConsensus()
    ensures EnabledRun(START, 3, SAME_VOTE_TWICE)
    ensures Run(START, SAME_VOTE_TWICE).callbacks == [Complete(0, 1, 1, 1)]
    ensures |Voters(ONCE.Votes(0)[0 := ANSWER], ANSWER)| == 1 && !Reaches(1, 3)
  {
    OneAndTwo();
    var rest := SAME_VOTE_TWICE[1..];
    assert rest[0] == SAME_VOTE_TWICE[1] && rest[1..][0] == SAME_VOTE_TWICE[2] && rest[1..][1..] == [];
    assert Bump(ASKED.Tally(0), ANSWER) == map[ANSWER := 1] && Bump(ONCE.Tally(0), ANSWER) == map[ANSWER := 2];
    var last := Notarize(ONCE, 0, 0, ANSWER, Consensus(ANSWER));
    assert Run(last, []) == last && Run(ONCE, rest[1..]) == last && Run(ASKED, rest) == last;
    assert EnabledRun(ONCE, 3, rest[1..]);
    assert EnabledRun(ASKED, 3, rest);
    assert Voters(ONCE.Votes(0)[0 := ANSWER], ANSWER) == {0};
  }

  // ---- A call that is given up ----

  /** Three notaries, three different answers. */
  const ANSWERS: seq<CallResult> := [Returned(1, 1, 1), Returned(2, 1, 1), Returned(3, 1, 1)]
  const ONE: map<CallResult, nat> := map[ANSWERS[0] := 1]
  const TWO: map<CallResult, nat> := ONE[ANSWERS[1] := 1]
  const THREE: map<CallResult, nat> := TWO[ANSWERS[2] := 1]

  const FIRST := Notarize(ASKED, 0, 0, ANSWERS[0], Undecided)
  const SECOND := Notarize(FIRST, 0, 1, ANSWERS[1], Undecided)

  lemma TalliesOfSplit()
    ensures Bump(ASKED.Tally(0), ANSWERS[0]) == ONE && Bump(FIRST.Tally(0), ANSWERS[1]) == TWO
      && Bump(SECOND.Tally(0), ANSWERS[2]) == THREE
    ensures Sum(ONE) == 1 && Sum(TWO) == 2 && Sum(THREE) == 3
  {
    SumZero<CallResult>(map[]);
    BumpSum(map[], ANSWERS[0]);
    BumpSum(ONE, ANSWERS[1]);
    BumpSum(TWO, ANSWERS[2]);
  }

  lemma OutcomesOfSplit()
    ensures Decides(ONE, 3, Undecided) && Decides(TWO, 3, Undecided) && Decides(THREE, 3, Hopeless)
  {
    TalliesOfSplit();
    assert Reaches(3, 3) && Reaches(2, 3) && !Reaches(1, 3);
    assert ANSWERS[0] in ONE && ANSWERS[0] in TWO;
  }

  const SPLIT_VOTE: seq<Event> := [
    Ask(REQUEST), Vote(0, 0, ANSWERS[0], Undecided), Vote(0, 1, ANSWERS[1], Undecided),
        Vote(0, 2, ANSWERS[2], Hopeless)]

  /** A call given up on is still reported with the last vote's data, here backed by one vote of
      three: subscribers cannot tell it from consensus. */
  lemma GivenUpCallReportsLastVote()
    ensures EnabledRun(START, 3, SPLIT_VOTE)
    ensures Run(START, SPLIT_VOTE).callbacks == [Complete(0, 3, 1, 1)] && !Reaches(1, 3)
  {
    TalliesOfSplit();
    OutcomesOfSplit();
    var rest := SPLIT_VOTE[1..];
    assert rest[0] == SPLIT_VOTE[1] && rest[1..][0] == SPLIT_VOTE[2] && rest[1..][1..][0] == SPLIT_VOTE[3];
    assert rest[1..][1..][1..] == [];
    var last := Notarize(SECOND, 0, 2, ANSWERS[2], Hopeless);
    assert Run(last, []) == last && Run(SECOND, rest[1..][1..]) == last && Run(FIRST, rest[1..]) == last
      && Run(ASKED, rest) == last;
    assert EnabledRun(SECOND, 3, rest[1..][1..]);
    assert EnabledRun(FIRST, 3, rest[1..]);
    assert EnabledRun(ASKED, 3, rest);
  }
}
