/** Storage and handlers of event claims. */
module EventClaimPallet {
  import opened Prelude
  import opened EthThreshold
  import opened EventClaimSpec

  /** Number of blocks between prunings. */
  const CLAIM_PRUNING_INTERVAL: nat := BUCKET_FACTOR_S / 5

  lemma YayAdds(votes: map<Notary, Verdict>, k: Notary)
    requires k !in votes
    ensures Yays(votes[k := Valid]) == Yays(votes) + 1 && Nays(votes[k := Valid]) == Nays(votes)
  {
    var next := votes[k := Valid];
    assert Voters(next, Valid) == Voters(votes, Valid) + {k};
    assert Against(next) == Against(votes);
  }

  lemma NayAdds(votes: map<Notary, Verdict>, k: Notary, v: Verdict)
    requires k !in votes && v != Valid
    ensures Yays(votes[k := v]) == Yays(votes) && Nays(votes[k := v]) == Nays(votes) + 1
  {
    var next := votes[k := v];
    assert Voters(next, Valid) == Voters(votes, Valid);
    assert Against(next) == Against(votes) + {k};
  }

  /** The counting loop over the stored notarizations of a claim. */
  method CountVotes(votes: map<Notary, Verdict>) returns (yay: nat, nay: nat)
    ensures yay == Yays(votes) && nay == Nays(votes)
  {
    var left := votes.Keys;
    ghost var seen: map<Notary, Verdict> := map[];
    yay, nay := 0, 0;
    while left != {}
      invariant left <= votes.Keys
      invariant seen == map k | k in votes && k !in left :: votes[k]
      invariant yay == Yays(seen) && nay == Nays(seen)
    {
      var k :| k in left;
      if votes[k] == Valid {
        YayAdds(seen, k);
        yay := yay + 1;
      } else {
        NayAdds(seen, k, votes[k]);
        nay := nay + 1;
      }
      seen := seen[k := votes[k]];
      left := left - {k};
    }
    assert seen == votes;
  }

  class ClaimBook {
    var nextId: ClaimId
    var nextType: TypeId
    var typeIds: map<EventType, TypeId>
    var types: map<TypeId, EventType>
    var claims: map<ClaimId, (Hash, TypeId)>
    var data: map<ClaimId, seq<nat>>
    var votes: map<ClaimId, map<Notary, Verdict>>
    var pending: map<Hash, ClaimId>
    var processed: set<Hash>
    var buckets: set<(nat, Hash)>
    var deadline: Seconds
    var told: seq<Told>
    ghost var submitted: map<ClaimId, Claim>

    ghost function View(): Claims
      reads this
    {
      Claims(nextId, nextType, typeIds, types, claims, data, votes, pending, processed, buckets, deadline, told,
             submitted)
    }

    constructor (seconds: Seconds)
      ensures View() == Start(seconds)
    {
      nextId, nextType, typeIds, types, claims, data := 0, 0, map[], map[], map[], map[];
      votes, pending, processed, buckets, deadline, told, submitted := map[], map[], {}, {}, seconds, [], map[];
    }

    /** The id of an event type, assigned on first sight. */
    method TypeIdOf(kind: EventType) returns (t: TypeId)
      modifies this`nextType, this`typeIds, this`types
      ensures t == if kind in old(typeIds) then old(typeIds)[kind] else old(nextType)
      ensures typeIds == old(typeIds)[kind := t]
      ensures types == if kind in old(typeIds) then old(types) else old(types)[t := kind]
      ensures nextType == if kind in old(typeIds) then old(nextType) else old(nextType) + 1
    {
      if kind !in typeIds {
        t := nextType;
        typeIds := typeIds[kind := t];
        types := types[t := kind];
        nextType := t + 1;
      } else {
        t := typeIds[kind];
        assert typeIds == typeIds[kind := t];
      }
    }

    method EnterClaim(kind: EventType, hash: Hash, bytes: seq<nat>) returns (id: ClaimId)
      modifies this
      ensures View() == Enter(old(View()), Claim(kind, hash, bytes)) && id == old(nextId)
    {
      var t := TypeIdOf(kind);
      id := nextId;
      data := data[id := bytes];
      claims := claims[id := (hash, t)];
      nextId := id + 1;
      pending := pending[hash := id];
      submitted := submitted[id := Claim(kind, hash, bytes)];
    }

    /** `submit_event_claim` */
    method SubmitEventClaim(kind: EventType, hash: Hash, bytes: seq<nat>) returns (r: Result<ClaimId, Error>)
      modifies this
      ensures
        var spec := Submit(old(View()), Claim(kind, hash, bytes));
        if spec.Ok? then r == Ok(old(nextId)) && View() == spec.value else r == Err(spec.error) && View() == old(View())
    {
      if hash in processed {
        r := Err(AlreadyNotarized);
      } else if hash in pending {
        r := Err(DuplicateClaim);
      } else {
        var id := EnterClaim(kind, hash, bytes);
        r := Ok(id);
      }
    }

    /** Drop an active claim and tell its subscribers. */
    method CloseClaim(id: ClaimId, success: bool)
      requires id in claims && id in data
      modifies this
      ensures View() == Close(old(View()), id, success)
    {
      var (hash, t) := claims[id];
      var kind := Get(types, t, (0, 0));
      told := told + [Told(id, success, kind, data[id])];
      data := data - {id};
      votes := votes - {id};
      claims := claims - {id};
      pending := pending - {hash};
    }

    method ApproveClaim(id: ClaimId, now: nat)
      requires id in claims && id in data
      modifies this
      ensures View() == Approve(old(View()), id, now)
    {
      var hash := claims[id].0;
      CloseClaim(id, true);
      var bucket := (now + deadline) % deadline / BUCKET_FACTOR_S;
      buckets := buckets + {(bucket, hash)};
      processed := processed + {hash};
    }

    /** `handle_event_notarization`, with `n` validators, at time `now`. */
    method HandleEventNotarization(id: ClaimId, verdict: Verdict, notary: Notary, n: nat, now: nat)
        returns (r: Result<(), Error>)
      modifies this
      ensures
        var spec := Notarize(old(View()), id, verdict, notary, n, now);
        if spec.Ok? then r == Ok(()) && View() == spec.value else r == Err(spec.error) && View() == old(View())
    {
      r := Ok(());
      if id !in claims {
        r := Err(InvalidClaim);
      } else {
        var ballots: map<Notary, Verdict> := Get(votes, id, map[])[notary := verdict];
        var yay, nay := CountVotes(ballots);
        if Percent(nay, n) > 100 - THRESHOLD {
          if id !in data { r := Err(InvalidClaim); } else { CloseClaim(id, false); }
        } else if Percent(yay, n) >= THRESHOLD {
          if id !in data { r := Err(InvalidClaim); } else { ApproveClaim(id, now); }
        } else {
          votes := votes[id := ballots];
        }
      }
    }

    /** The pruning half of `on_initialize`. */
    method PruneProcessed(block: nat, now: nat)
      modifies this`processed, this`buckets
      ensures block % CLAIM_PRUNING_INTERVAL == 0 ==> View() == Prune(old(View()), now)
      ensures block % CLAIM_PRUNING_INTERVAL != 0 ==> View() == old(View())
    {
      if block % CLAIM_PRUNING_INTERVAL == 0 {
        var b := now % deadline / BUCKET_FACTOR_S;
        var expired := set e | e in buckets && e.0 == b;
        var left := expired;
        while left != {}
          invariant left <= expired && buckets == old(buckets)
          invariant processed == set h | h in old(processed) && ((b, h) in left || (b, h) !in expired)
        {
          var e :| e in left;
          processed := processed - {e.1};
          left := left - {e};
        }
        buckets := buckets - expired;
        forall e ensures e in buckets <==> e in Prune(old(View()), now).buckets {}
        forall h ensures h in processed <==> h in Prune(old(View()), now).processed {}
      }
    }
  }
}
