/** Storage and handlers of event proofs and notary sets. */
module NotarySetPallet {
  import opened Prelude
  import opened NotarySetSpec

  class ProofBook {
    var nextProofId: ProofId
    var delayed: map<ProofId, Message>
    var perBlock: nat
    var paused: bool
    var keys: seq<Key>
    var nextKeys: seq<Key>
    var setId: SetId
    var setProofId: ProofId
    var logs: seq<Log>
    ghost var packed: map<ProofId, Message>
    ghost var direct: set<ProofId>
    ghost var installs: seq<Install>

    ghost function View(): Bridge
      reads this
    {
      Bridge(nextProofId, delayed, perBlock, paused, keys, nextKeys, setId, setProofId, logs, packed, direct, installs)
    }

    constructor (genesis: seq<Key>, limit: nat)
      ensures View() == Start(genesis, limit)
    {
      nextProofId, delayed, perBlock, paused, keys, nextKeys := 0, map[], limit, false, genesis, [];
      setId, setProofId, logs, packed, direct, installs := 0, 0, [], map[], {}, [];
    }

    /** `do_generate_event_proof` */
    method RequestSignatures(id: ProofId, message: Message)
      modifies this`logs
      ensures View() == Request(old(View()), id, message)
    {
      logs := logs + [SigningRequest(id, message, paused, setId)];
    }

    /** `generate_event_proof` */
    method GenerateEventProof(event: nat) returns (id: ProofId)
      modifies this
      ensures View() == Generate(old(View()), event) && id == old(nextProofId)
    {
      id := nextProofId;
      nextProofId := id + 1;
      var message := Message(event, setId, id);
      packed, direct := packed[id := message], direct + if paused then {} else {id};
      if paused {
        delayed := delayed[id := message];
      } else {
        RequestSignatures(id, message);
      }
    }

    /** The delayed-proof half of `on_initialize`: take delayed proofs, in whatever order storage lists
        them, up to the limit. */
    method ProcessDelayed() returns (ghost ids: seq<ProofId>)
      modifies this`logs, this`delayed
      ensures Batch(old(View()), ids) && View() == ReleaseAll(old(View()), ids)
    {
      ids := [];
      if |delayed| > 0 && !paused {
        var left := delayed.Keys;
        var taken := 0;
        while left != {} && taken < perBlock
          invariant taken == |ids| <= perBlock && left == delayed.Keys <= old(delayed).Keys
          invariant |ids| + |left| == |old(delayed)|
          invariant Distinct(ids) && forall i :: 0 <= i < |ids| ==> ids[i] in old(delayed) && ids[i] !in left
          invariant View() == ReleaseAll(old(View()), ids)
        {
          var id :| id in left;
          ReleaseAllAppend(old(View()), ids, id);
          RequestSignatures(id, delayed[id]);
          delayed := delayed - {id};
          left := left - {id};
          taken := taken + 1;
          ids := ids + [id];
        }
      }
    }

    method LogNotaryChange(next: seq<Key>)
      modifies this`nextKeys, this`setProofId, this`nextProofId, this`logs
      ensures View() == Announce(old(View()), next)
    {
      nextKeys := next;
      var id := nextProofId;
      setProofId := id;
      nextProofId := id + 1;
      logs := logs + [AuthoritiesChange(id, next, setId + 1)];
    }

    /** `on_new_session` and `handle_authorities_change` */
    method OnNewSession(nextFinal: bool, activeFinal: bool, validators: seq<Key>, queued: seq<Key>)
      modifies this
      ensures View() == NewSession(old(View()), nextFinal, activeFinal, validators, queued)
    {
      if nextFinal {
        LogNotaryChange(queued);
      } else if activeFinal {
        paused := true;
        if nextKeys == [] {
          LogNotaryChange(validators);
        }
      }
    }

    /** `on_before_session_ending` */
    method OnBeforeSessionEnding(activeFinal: bool)
      modifies this
      ensures View() == SessionEnding(old(View()), activeFinal)
    {
      if activeFinal {
        paused := false;
        installs := installs + [Install(nextKeys, setId + 1, Announced(logs))];
        keys := nextKeys;
        nextKeys := [];
        setId := setId + 1;
      }
    }
  }

  lemma {:induction false} ReleaseAllAppend(b: Bridge, ids: seq<ProofId>, id: ProofId)
    ensures ReleaseAll(b, ids + [id]) == Release(ReleaseAll(b, ids), id)
    decreases |ids|
  {
    if ids != [] {
      assert (ids + [id])[1..] == ids[1..] + [id];
      ReleaseAllAppend(Release(b, ids[0]), ids[1..], id);
    }
  }
}
