/** Notarizing eth_call requests: votes, a running tally per result, and one callback per call. */
module EthCallSpec {
  import opened Prelude
  import opened MapSum
  import opened EthThreshold

  type CallId = nat
  type Notary = nat

  datatype CallResult =
    | Returned(data: nat, block: nat, timestamp: nat)
    | ReturnDataExceedsLimit
    | ReturnDataEmpty
    | DataProviderErr
    | InvalidEthBlock
    | InvalidTimestamp

  datatype Failure = Empty | ExceedsLimit | Internal

  /** What subscribers hear about a call. */
  datatype Callback =
    | Complete(id: CallId, data: nat, block: nat, timestamp: nat)
    | Failed(id: CallId, reason: Failure)

  datatype Error = InvalidClaim

  datatype Request = Request(target: nat, input: seq<nat>, timestamp: nat, tryBlock: nat, lookBehind: nat,
                             checkedAt: nat)

  /** One vote, as it was counted. */
  datatype Ballot = Ballot(notary: Notary, result: CallResult)

  /** `callbacks` and `ballots` are histories: the calls to the subscribers, and every vote counted on a
      call in the order they came. `votes` keeps one vote per notary, the last. */
  datatype Calls = Calls(
    nextId: CallId,
    queue: seq<CallId>,
    info: map<CallId, Request>,
    votes: map<CallId, map<Notary, CallResult>>,
    tallies: map<CallId, map<CallResult, nat>>,
    callbacks: seq<Callback>,
    ballots: map<CallId, seq<Ballot>>)
  {
    function Votes(id: CallId): map<Notary, CallResult> { Get(votes, id, map[]) }

    function Tally(id: CallId): map<CallResult, nat> { Get(tallies, id, map[]) }

    function Ballots(id: CallId): seq<Ballot> { Get(ballots, id, []) }
  }

  function CallbackFor(id: CallId, r: CallResult): Callback {
    match r
    case Returned(data, block, timestamp) => Complete(id, data, block, timestamp)
    case ReturnDataEmpty => Failed(id, Empty)
    case ReturnDataExceedsLimit => Failed(id, ExceedsLimit)
    case _ => Failed(id, Internal)
  }

  /** `checked_eth_call`: queue a request under the next id. */
  function AskFor(s: Calls, request: Request): Calls {
    s.(nextId := s.nextId + 1, queue := s.queue + [s.nextId], info := s.info[s.nextId := request])
  }

  function RemoveFirst(queue: seq<CallId>, id: CallId): seq<CallId> {
    if queue == [] then []
    else if queue[0] == id then queue[1..]
    else [queue[0]] + RemoveFirst(queue[1..], id)
  }

  /** Tell the subscribers `result` and drop everything kept about the call. */
  function Deliver(s: Calls, id: CallId, result: CallResult): Calls {
    s.(queue := RemoveFirst(s.queue, id),
       info := s.info - {id},
       votes := s.votes - {id},
       tallies := s.tallies - {id},
       callbacks := s.callbacks + [CallbackFor(id, result)])
  }

  /** How a vote ends: a result reached the threshold, none can any more, or voting goes on. */
  datatype Outcome = Consensus(result: CallResult) | Hopeless | Undecided

  predicate HasConsensus(tally: map<CallResult, nat>, n: nat) {
    exists r :: r in tally && Reaches(tally[r], n)
  }

  ghost predicate CanReach(tally: map<CallResult, nat>, n: nat) {
    exists r :: r in tally && Reaches(tally[r] + SatSub(n, Sum(tally)), n)
  }

  /** The outcomes the tally allows; more than one only if several results reach the threshold. */
  ghost predicate Decides(tally: map<CallResult, nat>, n: nat, o: Outcome) {
    match o
    case Consensus(r) => r in tally && Reaches(tally[r], n)
    case Hopeless => !HasConsensus(tally, n) && (Sum(tally) == n || !CanReach(tally, n))
    case Undecided => !HasConsensus(tally, n) && Sum(tally) != n && CanReach(tally, n)
  }

  /** Record a vote, over an earlier one of the same notary. */
  function Record(s: Calls, id: CallId, notary: Notary, result: CallResult): Calls {
    s.(votes := s.votes[id := s.Votes(id)[notary := result]],
       ballots := s.ballots[id := s.Ballots(id) + [Ballot(notary, result)]])
  }

  /** `handle_call_notarization` for an active call, with the outcome its counting loops found. */
  function Notarize(s: Calls, id: CallId, notary: Notary, result: CallResult, o: Outcome): Calls {
    var voted := Record(s, id, notary, result);
    match o
    case Consensus(r) => Deliver(voted, id, r)
    case Hopeless => Deliver(voted, id, result)
    case Undecided => voted.(tallies := s.tallies[id := Bump(s.Tally(id), result)])
  }

  // ---- Runs ----

  datatype Event = Ask(request: Request) | Vote(id: CallId, notary: Notary, result: CallResult, outcome: Outcome)

  /** Votes for calls that are not active are refused and change nothing. */
  function Step(s: Calls, e: Event): Calls {
    match e
    case Ask(request) => AskFor(s, request)
    case Vote(id, notary, result, o) => if id in s.info then Notarize(s, id, notary, result, o) else s
  }

  /** A step the pallet can take with `n` validators: any vote, with an outcome its tally allows. */
  ghost predicate Enabled(s: Calls, n: nat, e: Event) {
    e.Vote? && e.id in s.info ==> Decides(Bump(s.Tally(e.id), e.result), n, e.outcome)
  }

  ghost predicate EnabledRun(s: Calls, n: nat, es: seq<Event>)
    decreases |es|
  {
    es == [] || (Enabled(s, n, es[0]) && EnabledRun(Step(s, es[0]), n, es[1..]))
  }

  function Run(s: Calls, es: seq<Event>): Calls
    decreases |es|
  {
    if es == [] then s else Run(Step(s, es[0]), es[1..])
  }

  const START := Calls(0, [], map[], map[], map[], [], map[])
}
