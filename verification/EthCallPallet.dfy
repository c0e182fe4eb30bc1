/** Storage and handlers of eth_call notarization. */
module EthCallPallet {
  import opened Prelude
  import opened MapSum
  import opened EthThreshold
  import opened EthCallSpec

  /** The entries of `m` under the given keys. */
  ghost function Only<K, V>(m: map<K, V>, keys: set<K>): map<K, V> { map k | k in m && k in keys :: m[k] }

  lemma TakeOne<K>(m: map<K, nat>, keys: set<K>, k: K)
    requires k in keys && k in m
    ensures Sum(Only(m, keys)) == m[k] + Sum(Only(m, keys - {k}))
  {
    SumRemove(Only(m, keys), k);
    assert Only(m, keys) - {k} == Only(m, keys - {k});
  }

  /** The first counting loop: stop at a result with consensus, otherwise count all votes. */
  method FindConsensus(tally: map<CallResult, nat>, n: nat) returns (winner: Option<CallResult>, total: nat)
    ensures winner.Some? ==> winner.value in tally && Reaches(tally[winner.value], n)
    ensures winner.None? ==> !HasConsensus(tally, n) && total == Sum(tally)
  {
    var pending := tally.Keys;
    winner, total := None, 0;
    assert Only(tally, pending) == tally;
    while pending != {} && winner.None?
      invariant pending <= tally.Keys
      invariant total + Sum(Only(tally, pending)) == Sum(tally)
      invariant winner.Some? ==> winner.value in tally && Reaches(tally[winner.value], n)
      invariant winner.None? ==> forall r :: r in tally && r !in pending ==> !Reaches(tally[r], n)
      decreases pending, winner.None?
    {
      var r :| r in pending;
      if Percent(tally[r], n) >= THRESHOLD {
        winner := Some(r);
      } else {
        TakeOne(tally, pending, r);
        total := total + tally[r];
        pending := pending - {r};
      }
    }
    if winner.None? { assert Only(tally, pending) == map[]; }
  }

  /** Whether some result could win by taking all outstanding votes. */
  method FindHope(tally: map<CallResult, nat>, n: nat, outstanding: nat) returns (hope: bool)
    ensures hope <==> exists r :: r in tally && Reaches(tally[r] + outstanding, n)
  {
    var pending := tally.Keys;
    hope := false;
    while pending != {} && !hope
      invariant pending <= tally.Keys
      invariant hope ==> exists r :: r in tally && Reaches(tally[r] + outstanding, n)
      invariant !hope ==> forall r :: r in tally && r !in pending ==> !Reaches(tally[r] + outstanding, n)
    {
      var r :| r in pending;
      hope := Percent(tally[r] + outstanding, n) >= THRESHOLD;
      pending := pending - {r};
    }
  }

  /** What the two counting loops decide. */
  method Decide(tally: map<CallResult, nat>, n: nat) returns (o: Outcome)
    ensures Decides(tally, n, o)
  {
    var winner, total := FindConsensus(tally, n);
    if winner.Some? {
      o := Consensus(winner.value);
    } else {
      var hope := FindHope(tally, n, SatSub(n, total));
      o := if total == n || !hope then Hopeless else Undecided;
    }
  }

  class CallBook {
    var nextId: CallId
    var queue: seq<CallId>
    var info: map<CallId, Request>
    var votes: map<CallId, map<Notary, CallResult>>
    var tallies: map<CallId, map<CallResult, nat>>
    var callbacks: seq<Callback>
    ghost var ballots: map<CallId, seq<Ballot>>

    ghost function View(): Calls
      reads this
    {
      Calls(nextId, queue, info, votes, tallies, callbacks, ballots)
    }

    constructor ()
      ensures View() == START
    {
      nextId, queue, info, votes, tallies, callbacks, ballots := 0, [], map[], map[], map[], [], map[];
    }

    /** `checked_eth_call` */
    method CheckedEthCall(request: Request) returns (id: CallId)
      modifies this
      ensures View() == AskFor(old(View()), request) && id == old(nextId)
    {
      id := nextId;
      info := info[id := request];
      queue := queue + [id];
      nextId := id + 1;
    }

    /** Find the first entry of the queue for `id` and take it out. */
    method Dequeue(id: CallId)
      modifies this`queue
      ensures queue == RemoveFirst(old(queue), id)
    {
      var i := 0;
      while i < |queue| && queue[i] != id
        invariant 0 <= i <= |queue|
        invariant RemoveFirst(queue, id) == queue[..i] + RemoveFirst(queue[i..], id)
      {
        assert queue[..i + 1] == queue[..i] + [queue[i]];
        i := i + 1;
      }
      if i < |queue| {
        queue := queue[..i] + queue[i + 1..];
      } else {
        assert queue[..i] == queue;
      }
    }

    method CallBackAndCleanUp(id: CallId, result: CallResult)
      modifies this
      ensures View() == Deliver(old(View()), id, result)
    {
      callbacks := callbacks + [CallbackFor(id, result)];
      votes := votes - {id};
      tallies := tallies - {id};
      info := info - {id};
      Dequeue(id);
    }

    /** `handle_call_notarization`: record, count, and resolve the call if this vote decides it. */
    method HandleCallNotarization(id: CallId, result: CallResult, notary: Notary, n: nat)
        returns (r: Result<Outcome, Error>)
      modifies this
      ensures id !in old(info) ==> r == Err(InvalidClaim) && View() == old(View())
      ensures id in old(info) ==>
        && r.Ok? && Decides(Bump(old(View()).Tally(id), result), n, r.value)
        && View() == Notarize(old(View()), id, notary, result, r.value)
    {
      if id !in info {
        r := Err(InvalidClaim);
      } else {
        votes := votes[id := Get(votes, id, map[])[notary := result]];
        ballots := ballots[id := Get(ballots, id, []) + [Ballot(notary, result)]];
        var tally := Bump(Get(tallies, id, map[]), result);
        var o := Decide(tally, n);
        match o {
          case Consensus(winner) => CallBackAndCleanUp(id, winner);
          case Hopeless => CallBackAndCleanUp(id, result);
          case Undecided => tallies := tallies[id := tally];
        }
        r := Ok(o);
      }
    }
  }
}
