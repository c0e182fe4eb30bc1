/** What the subscribers of an eth_call hear, over any run: the result of the vote that settled it. */
module EthCallAnswers {
  import opened Prelude
  import opened EthThreshold
  import opened EthCallSpec
  import opened EthCallBallots
  import opened EthCallSafety

  /** The callback `c` reports result `r` of call `id`. */
  predicate Tells(c: Callback, id: CallId, r: CallResult) {
    match c
    case Complete(i, data, block, timestamp) => i == id && r == Returned(data, block, timestamp)
    case Failed(i, Empty) => i == id && r == ReturnDataEmpty
    case Failed(i, ExceedsLimit) => i == id && r == ReturnDataExceedsLimit
    case Failed(i, Internal) => i == id && (r == DataProviderErr || r == InvalidEthBlock || r == InvalidTimestamp)
  }

  /** Some result has the threshold of the counted votes, or no way of casting the others could bring one there. */
  ghost predicate Settled(bs: seq<Ballot>, n: nat) {
    bs != [] && ((exists r :: Reaches(Count(bs, r), n)) || !Winnable(bs, n))
  }

  /** A callback reports the last counted vote on its call, which settled it. */
  ghost predicate Reported(c: Callback, bs: seq<Ballot>, n: nat) {
    Settled(bs, n) && Tells(c, c.id, bs[|bs| - 1].result)
  }

  ghost predicate AllReported(s: Calls, n: nat) {
    forall i :: 0 <= i < |s.callbacks| ==> Reported(s.callbacks[i], s.Ballots(s.callbacks[i].id), n)
  }

  lemma CallbackTells(id: CallId, r: CallResult)
    ensures CallbackFor(id, r).id == id && Tells(CallbackFor(id, r), id, r)
  {
  }

  /** What a vote on an active call adds to the callbacks. */
  lemma VoteReports(s: Calls, n: nat, e: Event)
    requires Inv(s, n) && Enabled(s, n, e) && e.Vote? && e.id in s.info && 0 < n
    ensures
      var (t, bs) := (Step(s, e), BallotsAfter(s, e));
      && t.Ballots(e.id) == bs
      && (e.id in t.info <==> !Settled(bs, n))
      && (e.id in t.info ==> t.callbacks == s.callbacks)
      && (e.id !in t.info ==>
            && |t.callbacks| == |s.callbacks| + 1 && t.callbacks[..|s.callbacks|] == s.callbacks
            && t.callbacks[|s.callbacks|].id == e.id && Reported(t.callbacks[|s.callbacks|], bs, n))
  {
    var bs := BallotsAfter(s, e);
    VoteDecides(s, n, e);
    VoteBallots(s, e);
    CallbackTells(e.id, e.result);
    match e.outcome
    case Consensus(r) => WinsByOne(s, n, e);
    case Hopeless =>
    case Undecided =>
  }

  lemma StepReports(s: Calls, n: nat, e: Event)
    requires Inv(s, n) && AllReported(s, n) && Enabled(s, n, e) && 0 < n
    ensures AllReported(Step(s, e), n)
  {
    var t := Step(s, e);
    if e.Vote? && e.id in s.info {
      VoteReports(s, n, e);
      forall i | 0 <= i < |t.callbacks| ensures Reported(t.callbacks[i], t.Ballots(t.callbacks[i].id), n) {
        if i < |s.callbacks| {
          assert t.callbacks[i] == s.callbacks[i] && Answered(s, s.callbacks[i].id);
          OthersUntouched(s, e, s.callbacks[i].id);
        }
      }
    } else {
      assert t.callbacks == s.callbacks && t.ballots == s.ballots;
    }
  }

  lemma {:induction false} RunReports(s: Calls, n: nat, es: seq<Event>)
    requires Inv(s, n) && AllReported(s, n) && EnabledRun(s, n, es) && 0 < n
    ensures AllReported(Run(s, es), n)
    decreases |es|
  {
    if es != [] {
      StepKeeps(s, n, es[0]);
      StepReports(s, n, es[0]);
      RunReports(Step(s, es[0]), n, es[1..]);
    }
  }

  lemma ActiveUnsettled(s: Calls, n: nat, id: CallId)
    requires Inv(s, n) && id in s.info && 0 < n
    ensures !Settled(s.Ballots(id), n)
  {
    assert Open(n, s.Votes(id), s.Tally(id), s.Ballots(id));
    forall r ensures !Reaches(Count(s.Ballots(id), r), n) {
      ReachesInTally(s.Tally(id), s.Ballots(id), n, r);
    }
  }

  /** Over any run with any votes by anyone: a call has been answered if and only if its counted votes settle it,
      and its callback reports the data, block and time, or the kind of failure, of the last vote counted. */
  lemma AnsweredBySettlingVote(n: nat, es: seq<Event>, id: CallId)
    requires EnabledRun(START, n, es) && 0 < n && id < Run(START, es).nextId
    ensures
      var s := Run(START, es);
      && (Answered(s, id) <==> Settled(s.Ballots(id), n))
      && (forall i :: 0 <= i < |s.callbacks| && s.callbacks[i].id == id ==>
            s.Ballots(id) != [] && Tells(s.callbacks[i], id, s.Ballots(id)[|s.Ballots(id)| - 1].result))
  {
    var s := Run(START, es);
    StartSound(n);
    RunKeeps(START, n, es);
    RunReports(START, n, es);
    if id in s.info { ActiveUnsettled(s, n, id); }
    if Answered(s, id) {
      var i :| 0 <= i < |s.callbacks| && s.callbacks[i].id == id;
      assert Reported(s.callbacks[i], s.Ballots(id), n);
    }
  }
}
