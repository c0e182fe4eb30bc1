/** Which keys are announced and installed, and when the bridge is paused, told by the sessions alone. */
module NotarySetChoice {
  import opened Prelude
  import opened NotarySetSpec
  import opened NotarySetSafety

  /** Keys with the id of the set they are for. */
  type Announcement = (seq<Key>, SetId)

  /** The notary sets announced so far. */
  function Changes(logs: seq<Log>): seq<Announcement> {
    if logs == [] then []
    else
      var (rest, last) := (Changes(logs[..|logs| - 1]), logs[|logs| - 1]);
      if last.AuthoritiesChange? then rest + [(last.keys, last.setId)] else rest
  }

  /** The keys a session announces: those queued if the next session is the last of the era, and those in force
      if this one is and nothing is kept for the next era. */
  function Chosen(kept: seq<Key>, op: Op): Option<seq<Key>> {
    match op
    case SessionStarts(nextFinal, activeFinal, validators, queued) =>
      if nextFinal then Some(queued) else if activeFinal && kept == [] then Some(validators) else None
    case _ => None
  }

  predicate EraEnds(op: Op) { op.SessionEnds? && op.activeFinal }

  function KeptAfter(kept: seq<Key>, op: Op): seq<Key> {
    if Chosen(kept, op).Some? then Chosen(kept, op).value else if EraEnds(op) then [] else kept
  }

  /** What a sequence of sessions announces, starting in set `id`. */
  function AnnouncedBy(kept: seq<Key>, id: SetId, ops: seq<Op>): seq<Announcement>
    decreases |ops|
  {
    if ops == [] then []
    else
      (if Chosen(kept, ops[0]).Some? then [(Chosen(kept, ops[0]).value, id + 1)] else []) +
      AnnouncedBy(KeptAfter(kept, ops[0]), if EraEnds(ops[0]) then id + 1 else id, ops[1..])
  }

  /** What it installs: at each era's end, the keys of the last session that announced any since the last one. */
  function InstalledBy(kept: seq<Key>, id: SetId, ops: seq<Op>): seq<Announcement>
    decreases |ops|
  {
    if ops == [] then []
    else
      (if EraEnds(ops[0]) then [(kept, id + 1)] else []) +
      InstalledBy(KeptAfter(kept, ops[0]), if EraEnds(ops[0]) then id + 1 else id, ops[1..])
  }

  function Installed(installs: seq<Install>): seq<Announcement> {
    seq(|installs|, i requires 0 <= i < |installs| => (installs[i].keys, installs[i].setId))
  }

  lemma ChangesAppend(logs: seq<Log>, l: Log)
    ensures Changes(logs + [l]) == Changes(logs) + if l.AuthoritiesChange? then [(l.keys, l.setId)] else []
  {
    assert (logs + [l])[..|logs|] == logs;
  }

  lemma {:induction false} ReleaseChangesNothing(b: Bridge, ids: seq<ProofId>)
    ensures
      var c := ReleaseAll(b, ids);
      Changes(c.logs) == Changes(b.logs) && c == b.(delayed := c.delayed, logs := c.logs)
    decreases |ids|
  {
    if ids != [] {
      if ids[0] in b.delayed { ChangesAppend(b.logs, SigningRequest(ids[0], b.delayed[ids[0]], b.paused, b.setId)); }
      ReleaseChangesNothing(Release(b, ids[0]), ids[1..]);
    }
  }

  lemma SessionChooses(b: Bridge, op: Op)
    requires op.SessionStarts?
    ensures
      var (c, chosen) := (Step(b, op), Chosen(b.nextKeys, op));
      && Changes(c.logs) == Changes(b.logs) + (if chosen.Some? then [(chosen.value, b.setId + 1)] else [])
      && c.nextKeys == KeptAfter(b.nextKeys, op) && c.paused == PausedAfter(b.paused, op)
      && c.setId == b.setId && c.installs == b.installs && c.keys == b.keys
  {
    var (vs, qs) := (op.validators, op.queued);
    if op.nextFinal {
      ChangesAppend(b.logs, AuthoritiesChange(b.nextProofId, qs, b.setId + 1));
    } else if op.activeFinal && b.nextKeys == [] {
      ChangesAppend(b.logs, AuthoritiesChange(b.nextProofId, vs, b.setId + 1));
    } else {
      assert Changes(b.logs) + [] == Changes(b.logs);
    }
  }

  /** One operation announces, keeps, installs and pauses what the session it belongs to says. */
  lemma StepChooses(b: Bridge, op: Op)
    ensures
      var (c, chosen) := (Step(b, op), Chosen(b.nextKeys, op));
      && Changes(c.logs) == Changes(b.logs) + (if chosen.Some? then [(chosen.value, b.setId + 1)] else [])
      && c.nextKeys == KeptAfter(b.nextKeys, op)
      && c.setId == (if EraEnds(op) then b.setId + 1 else b.setId)
      && Installed(c.installs) == Installed(b.installs) + (if EraEnds(op) then [(b.nextKeys, b.setId + 1)] else [])
      && c.keys == (if EraEnds(op) then b.nextKeys else b.keys)
      && c.paused == PausedAfter(b.paused, op)
  {
    match op
    case GenerateProof(event) =>
      ChangesAppend(b.logs, SigningRequest(b.nextProofId, Message(event, b.setId, b.nextProofId), b.paused, b.setId));
    case Block(ids) => ReleaseChangesNothing(b, ids);
    case SessionStarts(_, _, _, _) => SessionChooses(b, op);
    case _ =>
  }

  /** The last session of an era pauses the bridge, unless the next session is said to be the last as well, and the
      end of the era resumes it. */
  function PausedAfter(paused: bool, op: Op): bool {
    match op
    case SessionStarts(nextFinal, activeFinal, _, _) => paused || (activeFinal && !nextFinal)
    case SessionEnds(activeFinal) => paused && !activeFinal
    case _ => paused
  }

  function PausedBy(paused: bool, ops: seq<Op>): bool
    decreases |ops|
  {
    if ops == [] then paused else PausedBy(PausedAfter(paused, ops[0]), ops[1..])
  }

  /** Over any run, the sets announced are those the sessions chose, in order. */
  lemma {:induction false} RunAnnounces(b: Bridge, ops: seq<Op>)
    ensures Changes(Run(b, ops).logs) == Changes(b.logs) + AnnouncedBy(b.nextKeys, b.setId, ops)
    decreases |ops|
  {
    if ops != [] {
      StepChooses(b, ops[0]);
      RunAnnounces(Step(b, ops[0]), ops[1..]);
    }
  }

  /** Over any run, the keys installed at each era's end are those of the last session before it that chose any. */
  lemma {:induction false} RunInstalls(b: Bridge, ops: seq<Op>)
    ensures Installed(Run(b, ops).installs) == Installed(b.installs) + InstalledBy(b.nextKeys, b.setId, ops)
    decreases |ops|
  {
    if ops != [] {
      StepChooses(b, ops[0]);
      RunInstalls(Step(b, ops[0]), ops[1..]);
    }
  }

  /** Over any run, the bridge is paused exactly when the sessions say so. */
  lemma {:induction false} RunPauses(b: Bridge, ops: seq<Op>)
    ensures Run(b, ops).paused == PausedBy(b.paused, ops)
    decreases |ops|
  {
    if ops != [] {
      StepChooses(b, ops[0]);
      RunPauses(Step(b, ops[0]), ops[1..]);
    }
  }

  predicate Quiet(op: Op) { !(op.SessionStarts? && op.nextFinal) && !EraEnds(op) }

  lemma {:induction false} KeysKept(b: Bridge, ops: seq<Op>)
    requires b.nextKeys != [] && forall i :: 0 <= i < |ops| ==> Quiet(ops[i])
    ensures Run(b, ops).nextKeys == b.nextKeys && Run(b, ops).setId == b.setId
    decreases |ops|
  {
    if ops != [] {
      StepChooses(b, ops[0]);
      KeysKept(Step(b, ops[0]), ops[1..]);
    }
  }

  /** The keys queued when the last but one session of an era starts are those installed when the era ends. */
  lemma QueuedBecomeKeys(b: Bridge, activeFinal: bool, validators: seq<Key>, queued: seq<Key>, between: seq<Op>)
    requires queued != [] && forall i :: 0 <= i < |between| ==> Quiet(between[i])
    ensures
      var c := Step(Run(Step(b, SessionStarts(true, activeFinal, validators, queued)), between), SessionEnds(true));
      c.keys == queued && c.setId == b.setId + 1 && !c.paused
  {
    var s := Step(b, SessionStarts(true, activeFinal, validators, queued));
    StepChooses(b, SessionStarts(true, activeFinal, validators, queued));
    KeysKept(s, between);
    StepChooses(Run(s, between), SessionEnds(true));
  }

  /** In a forced era, announced only by its last session, the keys in force are installed again. */
  lemma ForcedEraKeeps(b: Bridge, validators: seq<Key>, queued: seq<Key>, between: seq<Op>)
    requires b.nextKeys == [] && validators != [] && forall i :: 0 <= i < |between| ==> Quiet(between[i])
    ensures
      var s := Step(b, SessionStarts(false, true, validators, queued));
      s.paused && Step(Run(s, between), SessionEnds(true)).keys == validators
  {
    var s := Step(b, SessionStarts(false, true, validators, queued));
    StepChooses(b, SessionStarts(false, true, validators, queued));
    KeysKept(s, between);
    StepChooses(Run(s, between), SessionEnds(true));
  }

  // ---- Proof ids ----

  predicate TakesId(kept: seq<Key>, op: Op) { op.GenerateProof? || Chosen(kept, op).Some? }

  /** The event and notary set each proof id stands for: ids are given out in turn to proofs asked for and to
      announcements. */
  function AskedBy(kept: seq<Key>, set': SetId, next: ProofId, ops: seq<Op>): map<ProofId, Message>
    decreases |ops|
  {
    if ops == [] then map[]
    else
      var rest := AskedBy(KeptAfter(kept, ops[0]), if EraEnds(ops[0]) then set' + 1 else set',
                          if TakesId(kept, ops[0]) then next + 1 else next, ops[1..]);
      if ops[0].GenerateProof? then map[next := Message(ops[0].event, set', next)] + rest else rest
  }

  lemma {:induction false} ReleasePacksNothing(b: Bridge, ids: seq<ProofId>)
    ensures ReleaseAll(b, ids).packed == b.packed && ReleaseAll(b, ids).nextProofId == b.nextProofId
    decreases |ids|
  {
    if ids != [] { ReleasePacksNothing(Release(b, ids[0]), ids[1..]); }
  }

  lemma StepPacks(b: Bridge, op: Op)
    ensures
      var c := Step(b, op);
      && c.nextProofId == (if TakesId(b.nextKeys, op) then b.nextProofId + 1 else b.nextProofId)
      && c.packed == if op.GenerateProof?
                     then b.packed[b.nextProofId := Message(op.event, b.setId, b.nextProofId)] else b.packed
  {
    match op
    case Block(ids) => ReleasePacksNothing(b, ids);
    case _ =>
  }

  lemma AskedFirst(b: Bridge, ops: seq<Op>)
    requires ops != []
    ensures
      var (c, asked) := (Step(b, ops[0]), AskedBy(b.nextKeys, b.setId, b.nextProofId, ops));
      var later := AskedBy(c.nextKeys, c.setId, c.nextProofId, ops[1..]);
      asked == if ops[0].GenerateProof?
               then map[b.nextProofId := Message(ops[0].event, b.setId, b.nextProofId)] + later else later
  {
    StepCounts(b, ops[0]);
  }

  lemma StepCounts(b: Bridge, op: Op)
    ensures
      var c := Step(b, op);
      && c.nextKeys == KeptAfter(b.nextKeys, op)
      && c.setId == (if EraEnds(op) then b.setId + 1 else b.setId)
      && c.nextProofId == (if TakesId(b.nextKeys, op) then b.nextProofId + 1 else b.nextProofId)
  {
    StepChooses(b, op);
    StepPacks(b, op);
  }

  lemma UnionAssociative(a: map<ProofId, Message>, b: map<ProofId, Message>, c: map<ProofId, Message>)
    ensures a + b + c == a + (b + c)
  {
  }

  /** Over any run: what is signed under a proof id is the event it was asked for, with the set in force then. */
  lemma {:induction false} RunPacks(b: Bridge, ops: seq<Op>)
    ensures Run(b, ops).packed == b.packed + AskedBy(b.nextKeys, b.setId, b.nextProofId, ops)
    decreases |ops|
  {
    if ops == [] {
      assert b.packed + map[] == b.packed;
    } else {
      var c := Step(b, ops[0]);
      var later := AskedBy(c.nextKeys, c.setId, c.nextProofId, ops[1..]);
      RunPacks(c, ops[1..]);
      assert Run(b, ops).packed == c.packed + later;
      AskedFirst(b, ops);
      StepPacks(b, ops[0]);
      if ops[0].GenerateProof? {
        var here := map[b.nextProofId := Message(ops[0].event, b.setId, b.nextProofId)];
        assert c.packed == b.packed + here;
        UnionAssociative(b.packed, here, later);
      }
    }
  }
}
