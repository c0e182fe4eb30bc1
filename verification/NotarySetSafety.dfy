/** No proof id is lost or used twice, nothing is signed while the bridge is paused, and the keys
    installed at the end of an era are those last announced. */
module NotarySetSafety {
  import opened Prelude
  import opened NotarySetSpec

  // ---- Proof ids ----

  predicate Logged(logs: seq<Log>, id: ProofId) { exists i :: 0 <= i < |logs| && logs[i].id == id }

  /** Every id handed out is in one place: logged once, or delayed. */
  ghost predicate OnePlace(nextProofId: ProofId, delayed: map<ProofId, Message>, logs: seq<Log>) {
    && (forall id: nat :: id < nextProofId ==> Logged(logs, id) != (id in delayed))
    && (forall id :: id in delayed ==> id < nextProofId)
    && (forall i :: 0 <= i < |logs| ==> logs[i].id < nextProofId)
    && (forall i, j :: 0 <= i < j < |logs| ==> logs[i].id != logs[j].id)
  }

  /** Delayed proofs keep the message they were packed with, for a notary set that is gone once the
      bridge is active again. */
  ghost predicate DelayedOk(delayed: map<ProofId, Message>, packed: map<ProofId, Message>, direct: set<ProofId>,
                            paused: bool, setId: SetId, next: ProofId) {
    && (forall id :: id in delayed ==> id in packed && delayed[id] == packed[id])
    && (forall id :: id in delayed ==> delayed[id].setId <= setId && (!paused ==> delayed[id].setId < setId))
    && (forall id :: id in packed || id in direct ==> id < next)
    && (forall id :: id in delayed ==> id !in direct)
  }

  /** Signing requests are never logged while the bridge is paused, and carry the packed message. It is
      for the notary set in force exactly when the proof was asked for while the bridge was active. */
  ghost predicate RequestsOk(logs: seq<Log>, packed: map<ProofId, Message>, direct: set<ProofId>) {
    forall i :: 0 <= i < |logs| && logs[i].SigningRequest? ==>
      && !logs[i].paused && logs[i].id in packed && logs[i].message == packed[logs[i].id]
      && logs[i].message.setId <= logs[i].current
      && (logs[i].message.setId == logs[i].current <==> logs[i].id in direct)
  }

  ghost predicate ProofsOk(b: Bridge) {
    && OnePlace(b.nextProofId, b.delayed, b.logs)
    && DelayedOk(b.delayed, b.packed, b.direct, b.paused, b.setId, b.nextProofId)
    && RequestsOk(b.logs, b.packed, b.direct)
  }

  lemma LogAdds(logs: seq<Log>, l: Log)
    ensures forall id: nat :: Logged(logs + [l], id) <==> Logged(logs, id) || id == l.id
  {
    assert (logs + [l])[|logs|] == l;
    forall id: nat ensures Logged(logs + [l], id) <==> Logged(logs, id) || id == l.id {
      if Logged(logs, id) {
        var i :| 0 <= i < |logs| && logs[i].id == id;
        assert (logs + [l])[i].id == id;
      }
    }
  }

  /** Logging the id just handed out. */
  lemma LogFresh(next: ProofId, delayed: map<ProofId, Message>, logs: seq<Log>, l: Log)
    requires OnePlace(next, delayed, logs) && l.id == next
    ensures OnePlace(next + 1, delayed, logs + [l])
  {
    LogAdds(logs, l);
    assert next !in delayed;
  }

  /** Logging a delayed id, which then is no longer delayed. */
  lemma LogDelayed(next: ProofId, delayed: map<ProofId, Message>, logs: seq<Log>, l: Log)
    requires OnePlace(next, delayed, logs) && l.id in delayed
    ensures OnePlace(next, delayed - {l.id}, logs + [l])
  {
    LogAdds(logs, l);
    forall i | 0 <= i < |logs| ensures logs[i].id != l.id {
      assert logs[i].id == l.id ==> Logged(logs, l.id);
    }
  }

  lemma GenerateKeeps(b: Bridge, event: nat)
    requires ProofsOk(b)
    ensures ProofsOk(Generate(b, event))
  {
    var (id, message) := (b.nextProofId, Message(event, b.setId, b.nextProofId));
    assert id !in b.packed && id !in b.delayed;
    if b.paused {
      assert !Logged(b.logs, id);
    } else {
      LogFresh(id, b.delayed, b.logs, SigningRequest(id, message, b.paused, b.setId));
    }
  }

  lemma ReleaseKeeps(b: Bridge, id: ProofId)
    requires ProofsOk(b) && !b.paused
    ensures ProofsOk(Release(b, id))
  {
    if id in b.delayed {
      LogDelayed(b.nextProofId, b.delayed, b.logs, SigningRequest(id, b.delayed[id], b.paused, b.setId));
    }
  }

  lemma {:induction false} ReleaseAllKeeps(b: Bridge, ids: seq<ProofId>)
    requires ProofsOk(b) && (ids != [] ==> !b.paused)
    ensures ProofsOk(ReleaseAll(b, ids))
    decreases |ids|
  {
    if ids != [] {
      ReleaseKeeps(b, ids[0]);
      ReleaseAllKeeps(Release(b, ids[0]), ids[1..]);
    }
  }

  lemma AnnounceKeeps(b: Bridge, next: seq<Key>)
    requires ProofsOk(b)
    ensures ProofsOk(Announce(b, next))
  {
    LogFresh(b.nextProofId, b.delayed, b.logs, AuthoritiesChange(b.nextProofId, next, b.setId + 1));
  }

  // ---- Notary sets ----

  /** Whether the next set has been announced. */
  predicate Ready(b: Bridge) { Announced(b.logs).Some? && Announced(b.logs).value.1 == b.setId + 1 }

  /** The keys kept for the next era are those last announced, for the next set id. */
  ghost predicate KeysOk(b: Bridge) {
    && (Ready(b) ==> b.nextKeys == Announced(b.logs).value.0)
    && (!Ready(b) ==> b.nextKeys == [])
    && (Announced(b.logs).Some? ==> Announced(b.logs).value.1 <= b.setId + 1)
  }

  lemma AnnouncedAfter(logs: seq<Log>, l: Log)
    ensures Announced(logs + [l]) == if l.AuthoritiesChange? then Some((l.keys, l.setId)) else Announced(logs)
  {
    assert (logs + [l])[..|logs|] == logs;
  }

  lemma {:induction false} ReleaseAllFrame(b: Bridge, ids: seq<ProofId>)
    ensures
      var c := ReleaseAll(b, ids);
      && Announced(c.logs) == Announced(b.logs) && c.nextKeys == b.nextKeys && c.setId == b.setId
      && c.keys == b.keys && c.installs == b.installs && c.paused == b.paused && c.perBlock == b.perBlock
    decreases |ids|
  {
    if ids != [] {
      if ids[0] in b.delayed { AnnouncedAfter(b.logs, SigningRequest(ids[0], b.delayed[ids[0]], b.paused, b.setId)); }
      ReleaseAllFrame(Release(b, ids[0]), ids[1..]);
    }
  }

  lemma StepKeepsKeys(b: Bridge, op: Op)
    requires KeysOk(b)
    ensures KeysOk(Step(b, op))
    ensures Ready(Step(b, op)) <==>
      match op
      case SessionStarts(nf, af, _, _) => Ready(b) || nf || af
      case SessionEnds(af) => Ready(b) && !af
      case _ => Ready(b)
  {
    match op
    case GenerateProof(event) =>
      AnnouncedAfter(b.logs, SigningRequest(b.nextProofId, Message(event, b.setId, b.nextProofId), b.paused, b.setId));
    case Block(ids) => ReleaseAllFrame(b, ids);
    case SessionStarts(nf, af, vs, qs) =>
      AnnouncedAfter(b.logs, AuthoritiesChange(b.nextProofId, qs, b.setId + 1));
      AnnouncedAfter(b.logs, AuthoritiesChange(b.nextProofId, vs, b.setId + 1));
    case _ =>
  }

  /** Ending an era installs exactly the announced keys under the announced id if and only if the next
      set has been announced; otherwise it installs no keys at all. */
  lemma EraEndInstalls(b: Bridge)
    requires KeysOk(b)
    ensures
      var c := SessionEnding(b, true);
      && (Announced(b.logs) == Some((c.keys, c.setId)) <==> Ready(b))
      && (!Ready(b) ==> c.keys == [])
  {
  }

  // ---- Runs ----

  ghost predicate Inv(b: Bridge) { ProofsOk(b) && KeysOk(b) }

  lemma StepKeepsProofs(b: Bridge, op: Op)
    requires ProofsOk(b) && Enabled(b, op)
    ensures ProofsOk(Step(b, op))
  {
    match op
    case GenerateProof(event) => GenerateKeeps(b, event);
    case Block(ids) => ReleaseAllKeeps(b, ids);
    case SessionStarts(nf, af, vs, qs) =>
      var p := b.(paused := true);
      AnnounceKeeps(b, qs);
      AnnounceKeeps(p, vs);
    case _ =>
  }

  predicate NextAsAnnounced(b: Bridge) { b.nextKeys != [] ==> Announced(b.logs) == Some((b.nextKeys, b.setId + 1)) }

  /** Over any run: every proof id handed out is logged exactly once or still delayed, every signing
      request was logged while the bridge was active and carries the message packed for it, and
      whatever keys are kept for the next era are those last announced, for the next set id. */
  lemma {:induction false} RunKeeps(b: Bridge, ops: seq<Op>)
    requires Inv(b) && EnabledRun(b, ops)
    ensures Inv(Run(b, ops)) && NextAsAnnounced(Run(b, ops))
    decreases |ops|
  {
    if ops != [] {
      StepKeepsProofs(b, ops[0]);
      StepKeepsKeys(b, ops[0]);
      RunKeeps(Step(b, ops[0]), ops[1..]);
    }
  }

  /** From genesis: no proof id is lost or duplicated, and no signing request is logged while paused. */
  lemma ProofIdsNeverLost(keys: seq<Key>, perBlock: nat, ops: seq<Op>)
    requires EnabledRun(Start(keys, perBlock), ops)
    ensures
      var b := Run(Start(keys, perBlock), ops);
      && (forall id: nat :: id < b.nextProofId ==> Logged(b.logs, id) != (id in b.delayed))
      && (forall i, j :: 0 <= i < j < |b.logs| ==> b.logs[i].id != b.logs[j].id)
      && (forall i :: 0 <= i < |b.logs| && b.logs[i].SigningRequest? ==> !b.logs[i].paused)
  {
    RunKeeps(Start(keys, perBlock), ops);
  }

  /** Over any run from genesis, a signing request names the notary set in force when it is logged if and
      only if the proof was asked for while the bridge was active; otherwise it names an earlier set. */
  lemma RequestsNameTheirSet(keys: seq<Key>, perBlock: nat, ops: seq<Op>)
    requires EnabledRun(Start(keys, perBlock), ops)
    ensures
      var b := Run(Start(keys, perBlock), ops);
      forall i :: 0 <= i < |b.logs| && b.logs[i].SigningRequest? ==>
        && (b.logs[i].message.setId == b.logs[i].current <==> b.logs[i].id in b.direct)
        && b.logs[i].message.setId <= b.logs[i].current
  {
    RunKeeps(Start(keys, perBlock), ops);
  }

  /** An era ends while a proof waits. */
  const LATE_PROOF: seq<Op> := [
    SessionStarts(false, true, [2], []), GenerateProof(9), SessionEnds(true), Block([1])]

  /** Proof 1, asked for while the bridge is paused under set 0, is requested once set 1 is in force. */
  lemma LateProofNamesOldSet()
    ensures EnabledRun(Start([1], 5), LATE_PROOF)
    ensures
      var b := Run(Start([1], 5), LATE_PROOF);
      b.logs[|b.logs| - 1] == SigningRequest(1, Message(9, 0, 1), false, 1)
  {
    var b0 := Start([1], 5);
    var b1 := Step(b0, LATE_PROOF[0]);
    var b2 := Step(b1, LATE_PROOF[1]);
    var b3 := Step(b2, LATE_PROOF[2]);
    assert b2.delayed == map[1 := Message(9, 0, 1)] && b3.delayed == b2.delayed && !b3.paused && b3.setId == 1;
    assert Batch(b3, [1]);
    var b4 := Step(b3, LATE_PROOF[3]);
    assert ReleaseAll(Release(b3, 1), []) == Release(b3, 1) && [1][1..] == [];
    assert b4 == Release(b3, 1);
    var (r1, r2, r3) := (LATE_PROOF[1..], LATE_PROOF[1..][1..], LATE_PROOF[1..][1..][1..]);
    assert r1[0] == LATE_PROOF[1] && r2[0] == LATE_PROOF[2] && r3[0] == LATE_PROOF[3] && r3[1..] == [];
    assert Run(b4, []) == b4 && Run(b3, r3) == b4 && Run(b2, r2) == b4 && Run(b1, r1) == b4;
    assert EnabledRun(b4, []) && EnabledRun(b3, r3) && EnabledRun(b2, r2) && EnabledRun(b1, r1);
  }

  /** An era that ends without an announcement takes the keys away. */
  lemma UnannouncedEraLosesKeys()
    ensures var b := Step(Start([1], 5), SessionEnds(true)); b.keys == [] && b.setId == 1 && Announced(b.logs) == None
  {
  }

  /** Eras end only after a session that announced the next set: the last session of an era, or the
      one before it, was seen starting. */
  predicate Orderly(ready: bool, ops: seq<Op>)
    decreases |ops|
  {
    ops == [] ||
    match ops[0]
    case SessionStarts(nf, af, _, _) => Orderly(ready || nf || af, ops[1..])
    case SessionEnds(af) => (af ==> ready) && Orderly(ready && !af, ops[1..])
    case _ => Orderly(ready, ops[1..])
  }

  predicate AsAnnounced(installs: seq<Install>) {
    forall i :: 0 <= i < |installs| ==> installs[i].announced == Some((installs[i].keys, installs[i].setId))
  }

  /** What one step adds to the installs: nothing, or at an era's end one that is as announced exactly when
      the next set has been announced. */
  lemma StepInstalls(b: Bridge, op: Op)
    requires KeysOk(b)
    ensures
      var (was, now) := (b.installs, Step(b, op).installs);
      if op.SessionEnds? && op.activeFinal
      then |now| == |was| + 1 && now[..|was|] == was && (AsAnnounced(now) <==> AsAnnounced(was) && Ready(b))
      else now == was
  {
    if op.Block? { ReleaseAllFrame(b, op.ids); }
    if op.SessionEnds? && op.activeFinal {
      EraEndInstalls(b);
      var (was, now) := (b.installs, Step(b, op).installs);
      assert now == was + [Install(b.nextKeys, b.setId + 1, Announced(b.logs))];
      assert AsAnnounced(now) ==> AsAnnounced(was) by {
        forall i | 0 <= i < |was| ensures was[i] == now[i] {}
      }
      assert AsAnnounced(now) ==> now[|was|].announced == Some((now[|was|].keys, now[|was|].setId));
    }
  }

  /** An install that was not as announced stays on the record. */
  lemma {:induction false} RecordStays(b: Bridge, ops: seq<Op>)
    requires KeysOk(b) && !AsAnnounced(b.installs)
    ensures !AsAnnounced(Run(b, ops).installs)
    decreases |ops|
  {
    if ops != [] {
      StepKeepsKeys(b, ops[0]);
      StepInstalls(b, ops[0]);
      RecordStays(Step(b, ops[0]), ops[1..]);
    }
  }

  /** Over any session sequence, forced eras included: the keys and set id installed at each era's end are
      exactly those last announced if and only if every era that ends was announced. */
  lemma {:induction false} InstalledAsAnnounced(b: Bridge, ops: seq<Op>)
    requires KeysOk(b) && AsAnnounced(b.installs)
    ensures AsAnnounced(Run(b, ops).installs) <==> Orderly(Ready(b), ops)
    decreases |ops|
  {
    if ops != [] {
      var (c, rest) := (Step(b, ops[0]), ops[1..]);
      StepKeepsKeys(b, ops[0]);
      StepInstalls(b, ops[0]);
      if AsAnnounced(c.installs) {
        InstalledAsAnnounced(c, rest);
      } else {
        RecordStays(c, rest);
      }
      assert Run(b, ops) == Run(c, rest);
    }
  }

  // ---- Backlog ----

  lemma {:induction false} ReleaseAllShrinks(b: Bridge, ids: seq<ProofId>)
    requires Distinct(ids) && forall i :: 0 <= i < |ids| ==> ids[i] in b.delayed
    ensures |ReleaseAll(b, ids).delayed| == |b.delayed| - |ids|
    decreases |ids|
  {
    if ids != [] {
      var c := Release(b, ids[0]);
      assert c.delayed.Keys == b.delayed.Keys - {ids[0]};
      assert |c.delayed| == |b.delayed| - 1;
      ReleaseAllShrinks(c, ids[1..]);
    }
  }

  /** One block takes the limit, or all there is. */
  lemma BlockDrains(b: Bridge, ids: seq<ProofId>)
    requires !b.paused && Batch(b, ids)
    ensures
      var c := ReleaseAll(b, ids);
      |c.delayed| == SatSub(|b.delayed|, b.perBlock) && !c.paused && c.perBlock == b.perBlock
  {
    ReleaseAllShrinks(b, ids);
    ReleaseAllFrame(b, ids);
  }

  lemma DrainOnceMore(size: nat, limit: nat, blocks: nat)
    ensures SatSub(SatSub(size, limit), blocks * limit) == SatSub(size, (blocks + 1) * limit)
  {
    assert (blocks + 1) * limit == blocks * limit + limit;
  }

  ghost predicate Blocks(b: Bridge, batches: seq<seq<ProofId>>)
    decreases |batches|
  {
    batches == [] || (Batch(b, batches[0]) && Blocks(ReleaseAll(b, batches[0]), batches[1..]))
  }

  function AfterBlocks(b: Bridge, batches: seq<seq<ProofId>>): Bridge
    decreases |batches|
  {
    if batches == [] then b else AfterBlocks(ReleaseAll(b, batches[0]), batches[1..])
  }

  /** While the bridge is active and nothing new is delayed, the backlog falls by the limit per block
      until it is empty. */
  lemma {:induction false} BacklogDrains(b: Bridge, batches: seq<seq<ProofId>>)
    requires !b.paused && Blocks(b, batches)
    ensures |AfterBlocks(b, batches).delayed| == SatSub(|b.delayed|, |batches| * b.perBlock)
    decreases |batches|
  {
    if batches != [] {
      BlockDrains(b, batches[0]);
      BacklogDrains(ReleaseAll(b, batches[0]), batches[1..]);
      DrainOnceMore(|b.delayed|, b.perBlock, |batches| - 1);
    }
  }
}
