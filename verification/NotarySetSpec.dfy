/** Event proofs and the notary set: signing requests, their delay while the bridge is paused, and
    the change of keys at the end of an era. */
module NotarySetSpec {
  import opened Prelude

  type ProofId = nat
  type Key = nat
  type SetId = nat

  /** What is signed: the event, the notary set it was packed for and its proof id. */
  datatype Message = Message(event: nat, setId: SetId, id: ProofId)

  /** A consensus log. Each carries the state of the bridge when it was deposited. */
  datatype Log =
    | SigningRequest(id: ProofId, message: Message, paused: bool, current: SetId)
    | AuthoritiesChange(id: ProofId, keys: seq<Key>, setId: SetId)

  /** The keys and set id installed at the end of an era, and the announcement in force then. */
  datatype Install = Install(keys: seq<Key>, setId: SetId, announced: Option<(seq<Key>, SetId)>)

  /** `logs`, `packed`, `direct` and `installs` are histories; `direct` holds the proof ids asked for
      while the bridge was active. */
  datatype Bridge = Bridge(
    nextProofId: ProofId,
    delayed: map<ProofId, Message>,
    perBlock: nat,
    paused: bool,
    keys: seq<Key>,
    nextKeys: seq<Key>,
    setId: SetId,
    setProofId: ProofId,
    logs: seq<Log>,
    packed: map<ProofId, Message>,
    direct: set<ProofId>,
    installs: seq<Install>)

  /** `do_generate_event_proof` */
  function Request(b: Bridge, id: ProofId, message: Message): Bridge {
    b.(logs := b.logs + [SigningRequest(id, message, b.paused, b.setId)])
  }

  /** `generate_event_proof`: ask for signatures at once, or later if the bridge is paused. */
  function Generate(b: Bridge, event: nat): Bridge {
    var id := b.nextProofId;
    var message := Message(event, b.setId, id);
    var c := b.(nextProofId := id + 1, packed := b.packed[id := message],
                direct := b.direct + if b.paused then {} else {id});
    if b.paused then c.(delayed := c.delayed[id := message]) else Request(c, id, message)
  }

  /** Ask for the signatures of one delayed proof. */
  function Release(b: Bridge, id: ProofId): Bridge {
    if id in b.delayed then Request(b, id, b.delayed[id]).(delayed := b.delayed - {id}) else b
  }

  function ReleaseAll(b: Bridge, ids: seq<ProofId>): Bridge
    decreases |ids|
  {
    if ids == [] then b else ReleaseAll(Release(b, ids[0]), ids[1..])
  }

  /** The delayed proofs a block may take, in the order storage lists them. */
  predicate Batch(b: Bridge, ids: seq<ProofId>) {
    && Distinct(ids) && (forall i :: 0 <= i < |ids| ==> ids[i] in b.delayed)
    && |ids| == if b.paused then 0 else Min(b.perBlock, |b.delayed|)
  }

  /** Announce the next notary set, and remember its keys. */
  function Announce(b: Bridge, next: seq<Key>): Bridge {
    b.(nextKeys := next,
       setProofId := b.nextProofId,
       nextProofId := b.nextProofId + 1,
       logs := b.logs + [AuthoritiesChange(b.nextProofId, next, b.setId + 1)])
  }

  /** `on_new_session`, with the answers of the session tracker. */
  function NewSession(b: Bridge, nextFinal: bool, activeFinal: bool, validators: seq<Key>, queued: seq<Key>): Bridge {
    if nextFinal then Announce(b, queued)
    else if activeFinal then
      var p := b.(paused := true);
      if b.nextKeys == [] then Announce(p, validators) else p
    else b
  }

  /** The last announcement of a notary set. */
  function Announced(logs: seq<Log>): Option<(seq<Key>, SetId)> {
    if logs == [] then None
    else
      var last := logs[|logs| - 1];
      if last.AuthoritiesChange? then Some((last.keys, last.setId)) else Announced(logs[..|logs| - 1])
  }

  /** `on_before_session_ending` */
  function SessionEnding(b: Bridge, activeFinal: bool): Bridge {
    if activeFinal then
      b.(paused := false, keys := b.nextKeys, nextKeys := [], setId := b.setId + 1,
         installs := b.installs + [Install(b.nextKeys, b.setId + 1, Announced(b.logs))])
    else b
  }

  // ---- Runs ----

  datatype Op =
    | GenerateProof(event: nat)
    | Block(ids: seq<ProofId>)
    | SetPerBlock(count: nat)
    | SessionStarts(nextFinal: bool, activeFinal: bool, validators: seq<Key>, queued: seq<Key>)
    | SessionEnds(activeFinal: bool)

  predicate Enabled(b: Bridge, op: Op) { op.Block? ==> Batch(b, op.ids) }

  function Step(b: Bridge, op: Op): Bridge {
    match op
    case GenerateProof(event) => Generate(b, event)
    case Block(ids) => ReleaseAll(b, ids)
    case SetPerBlock(count) => b.(perBlock := count)
    case SessionStarts(nf, af, vs, qs) => NewSession(b, nf, af, vs, qs)
    case SessionEnds(af) => SessionEnding(b, af)
  }

  ghost predicate EnabledRun(b: Bridge, ops: seq<Op>)
    decreases |ops|
  {
    ops == [] || (Enabled(b, ops[0]) && EnabledRun(Step(b, ops[0]), ops[1..]))
  }

  function Run(b: Bridge, ops: seq<Op>): Bridge
    decreases |ops|
  {
    if ops == [] then b else Run(Step(b, ops[0]), ops[1..])
  }

  function Start(keys: seq<Key>, perBlock: nat): Bridge {
    Bridge(0, map[], perBlock, false, keys, [], 0, 0, [], map[], {}, [])
  }
}
