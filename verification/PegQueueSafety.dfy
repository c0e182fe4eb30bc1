/** Every delayed claim is processed once, in order, and not before its block. */
module PegQueueSafety {
  import opened Prelude
  import opened Arithmetic
  import opened PegQueueSpec

  /** The order of processing: by scheduled block, then by claim id. */
  predicate Before(b: Block, i: ClaimId, c: Block, j: ClaimId) { b < c || (b == c && i < j) }

  predicate Ascending(s: seq<nat>) { forall i, j :: 0 <= i < j < |s| ==> s[i] < s[j] }

  predicate Waiting<C>(q: Queue<C>, id: ClaimId) {
    id in q.home && id in q.At(q.home[id])
  }

  predicate Finished<C>(q: Queue<C>, id: ClaimId) { exists k :: 0 <= k < |q.done| && q.done[k].id == id }

  /** Ready blocks are past, in order, and hold claims; every other scheduled block is to come. */
  ghost predicate BlocksOk<C>(q: Queue<C>) {
    && Ascending(q.ready)
    && (forall b :: b in q.ready ==> b <= q.now && b in q.schedule)
    && (forall b :: b in q.schedule ==> q.schedule[b] != [] && (b in q.ready || q.now < b))
  }

  /** Claims sit under the block announced for them, in id order. */
  ghost predicate ScheduleOk<C>(q: Queue<C>) {
    && (forall b :: b in q.schedule ==> Ascending(q.schedule[b]))
    && (forall b, id :: b in q.schedule && id in q.schedule[b] ==> id in q.home && q.home[id] == b && !Finished(q, id))
    && IdsOk(q)
  }

  /** Every id handed out waits, and then its claim is stored, or is finished. */
  ghost predicate IdsOk<C>(q: Queue<C>) {
    && (forall id: nat :: id in q.home <==> id < q.nextId)
    && (forall id: nat :: id in q.claims <==> Waiting(q, id))
    && (forall id: nat :: id < q.nextId ==> Waiting(q, id) || Finished(q, id))
  }

  /** Claims were processed in order, none before its block, and all before what still waits. */
  ghost predicate DoneOk<C>(q: Queue<C>) {
    && (forall k :: 0 <= k < |q.done| ==> q.done[k].id in q.home && q.home[q.done[k].id] <= q.done[k].at <= q.now)
    && (forall k, m :: 0 <= k < m < |q.done| ==>
          Before(q.home[q.done[k].id], q.done[k].id, q.home[q.done[m].id], q.done[m].id))
    && (forall k, b, id :: 0 <= k < |q.done| && b in q.schedule && id in q.schedule[b] ==>
          Before(q.home[q.done[k].id], q.done[k].id, b, id))
  }

  ghost predicate Inv<C>(q: Queue<C>) { BlocksOk(q) && ScheduleOk(q) && DoneOk(q) }

  lemma DelayMembers<C>(q: Queue<C>, delay: nat, claim: C, c: Block, i: ClaimId)
    requires Inv(q) && !Exhausted(q)
    ensures
      var r := Delay(q, delay, claim);
      && (c in r.schedule && i in r.schedule[c] <==>
            (c in q.schedule && i in q.schedule[c]) || (c == q.now + delay && i == q.nextId))
      && (Finished(r, i) <==> Finished(q, i))
      && (Waiting(r, i) <==> Waiting(q, i) || i == q.nextId)
  {
    var r := Delay(q, delay, claim);
    assert r.At(q.now + delay) == q.At(q.now + delay) + [q.nextId];
    assert q.nextId !in q.home;
    if i in q.home { assert i != q.nextId; }
  }

  lemma DelayAscending<C>(q: Queue<C>, delay: nat, claim: C)
    requires Inv(q) && !Exhausted(q)
    ensures var r := Delay(q, delay, claim); forall b :: b in r.schedule ==> Ascending(r.schedule[b])
  {
    var (b, ids) := (q.now + delay, q.At(q.now + delay));
    forall k | 0 <= k < |ids| ensures ids[k] < q.nextId {
      assert b in q.schedule && ids[k] in q.schedule[b] && ids[k] in q.home;
    }
    assert Ascending(ids + [q.nextId]);
  }

  lemma DelayMember<C>(q: Queue<C>, delay: nat, claim: C, b: Block, id: ClaimId)
    requires Inv(q) && !Exhausted(q)
    requires var r := Delay(q, delay, claim); b in r.schedule && id in r.schedule[b]
    ensures var r := Delay(q, delay, claim); id in r.home && r.home[id] == b && !Finished(r, id)
  {
    DelayMembers(q, delay, claim, b, id);
    assert !Finished(q, q.nextId);
  }

  lemma DelaySchedule<C>(q: Queue<C>, delay: nat, claim: C)
    requires Inv(q) && !Exhausted(q)
    ensures ScheduleOk(Delay(q, delay, claim))
  {
    var r := Delay(q, delay, claim);
    DelayAscending(q, delay, claim);
    forall b, id | b in r.schedule && id in r.schedule[b] ensures id in r.home && r.home[id] == b && !Finished(r, id) {
      DelayMember(q, delay, claim, b, id);
    }
    forall i: nat ensures (Finished(r, i) <==> Finished(q, i)) && (Waiting(r, i) <==> Waiting(q, i) || i == q.nextId) {
      DelayMembers(q, delay, claim, 0, i);
    }
  }

  lemma DelayKeeps<C>(q: Queue<C>, delay: nat, claim: C)
    requires Inv(q) && 1 <= delay
    ensures Inv(Delay(q, delay, claim))
  {
    if !Exhausted(q) {
      var r := Delay(q, delay, claim);
      DelaySchedule(q, delay, claim);
      assert BlocksOk(r);
      forall k, b, id | 0 <= k < |r.done| && b in r.schedule && id in r.schedule[b]
        ensures r.done[k].id in r.home && Before(r.home[r.done[k].id], r.done[k].id, b, id)
      {
        DelayMembers(q, delay, claim, b, id);
      }
    }
  }

  lemma NewBlockKeeps<C>(q: Queue<C>)
    requires Inv(q)
    ensures Inv(NewBlock(q))
  {
    var r := NewBlock(q);
    assert Ascending(r.ready) by {
      forall i, j | 0 <= i < j < |r.ready| ensures r.ready[i] < r.ready[j] {
        assert q.ready[i] in q.ready;
      }
    }
    assert forall id: nat :: (Waiting(r, id) <==> Waiting(q, id)) && (Finished(r, id) <==> Finished(q, id));
  }

  /** Under the invariant a pop finds its claim, and takes it out of its block. */
  lemma PopBlocks<C>(q: Queue<C>)
    requires Inv(q) && q.ready != []
    ensures BlocksOk(Pop(q))
    ensures q.At(q.ready[0]) != [] && q.At(q.ready[0])[0] in q.claims
  {
    var b := q.ready[0];
    var ids := q.At(b);
    assert b in q.ready && b in q.schedule;
    assert ids[0] in ids;
    assert Waiting(q, ids[0]);
    var r := Pop(q);
    if |ids| == 1 {
      assert forall c :: c in q.ready <==> c == b || c in r.ready by { assert q.ready == [b] + q.ready[1..]; }
      assert forall k :: 0 <= k < |r.ready| ==> r.ready[k] == q.ready[k + 1];
    }
  }

  lemma PopMembers<C>(q: Queue<C>, c: Block, i: ClaimId)
    requires Inv(q) && q.ready != []
    ensures
      var r := Pop(q);
      var first := q.At(q.ready[0])[0];
      c in r.schedule && i in r.schedule[c] <==> c in q.schedule && i in q.schedule[c] && i != first
  {
    PopBlocks(q);
    var b := q.ready[0];
    var ids := q.At(b);
    assert b in q.schedule;
    assert ids == [ids[0]] + ids[1..];
    assert ids[0] in q.schedule[b] && q.home[ids[0]] == b;
    assert forall k :: 0 <= k < |ids[1..]| ==> ids[1..][k] == ids[k + 1];
  }

  lemma PopKeeps<C>(q: Queue<C>)
    requires Inv(q)
    ensures Inv(Pop(q))
  {
    if q.ready != [] {
      PopBlocks(q);
      PopSchedule(q);
      PopDone(q);
    }
  }

  lemma PopWaiting<C>(q: Queue<C>, i: ClaimId)
    requires Inv(q) && q.ready != []
    ensures
      var (r, first) := (Pop(q), q.At(q.ready[0])[0]);
      && (Finished(r, i) <==> Finished(q, i) || i == first)
      && (Waiting(r, i) <==> Waiting(q, i) && i != first)
  {
    var (r, first) := (Pop(q), q.At(q.ready[0])[0]);
    PopBlocks(q);
    assert r.done[|q.done|].id == first;
    if Finished(q, i) {
      var k :| 0 <= k < |q.done| && q.done[k].id == i;
      assert r.done[k].id == i;
    }
    if i in q.home {
      var c := q.home[i];
      PopMembers(q, c, i);
      assert i in r.At(c) <==> c in r.schedule && i in r.schedule[c];
    }
  }

  lemma PopMember<C>(q: Queue<C>, b: Block, id: ClaimId)
    requires Inv(q) && q.ready != [] && b in Pop(q).schedule && id in Pop(q).schedule[b]
    ensures id in q.home && q.home[id] == b && !Finished(Pop(q), id)
  {
    PopMembers(q, b, id);
    PopWaiting(q, id);
  }

  lemma PopAscending<C>(q: Queue<C>)
    requires Inv(q) && q.ready != []
    ensures forall b :: b in Pop(q).schedule ==> Ascending(Pop(q).schedule[b])
  {
    assert Ascending(q.At(q.ready[0])[1..]);
  }

  lemma PopIds<C>(q: Queue<C>)
    requires Inv(q) && q.ready != []
    ensures IdsOk(Pop(q))
  {
    var (r, first) := (Pop(q), q.At(q.ready[0])[0]);
    PopBlocks(q);
    forall i: nat
        ensures (Finished(r, i) <==> Finished(q, i) || i == first) && (Waiting(r, i) <==> Waiting(q, i) && i != first) {
      PopWaiting(q, i);
    }
  }

  lemma PopSchedule<C>(q: Queue<C>)
    requires Inv(q) && q.ready != []
    ensures ScheduleOk(Pop(q))
  {
    var r := Pop(q);
    PopAscending(q);
    PopIds(q);
    forall b, i | b in r.schedule && i in r.schedule[b] ensures i in r.home && r.home[i] == b && !Finished(r, i) {
      PopMember(q, b, i);
    }
  }

  lemma PopDone<C>(q: Queue<C>)
    requires Inv(q) && q.ready != []
    ensures DoneOk(Pop(q))
  {
    var r := Pop(q);
    var (b, first) := (q.ready[0], q.At(q.ready[0])[0]);
    PopBlocks(q);
    assert b in q.schedule && first in q.schedule[b] && q.home[first] == b;
    forall c, i ensures c in r.schedule && i in r.schedule[c] <==> c in q.schedule && i in q.schedule[c] && i != first {
      PopMembers(q, c, i);
    }
    forall c, i | c in r.schedule && i in r.schedule[c] ensures Before(b, first, c, i) {
      assert c in q.schedule && i in q.schedule[c] && i != first;
      if c == b {
        var k :| 0 <= k < |q.schedule[b]| && q.schedule[b][k] == i;
      } else if c in q.ready {
        var k :| 0 <= k < |q.ready| && q.ready[k] == c;
      }
    }
  }

  lemma {:induction false} PopNKeeps<C>(q: Queue<C>, n: nat)
    requires Inv(q)
    ensures Inv(PopN(q, n))
    ensures PopN(q, n).home == q.home && PopN(q, n).nextId == q.nextId && PopN(q, n).now == q.now
    decreases n
  {
    if n > 0 {
      PopKeeps(q);
      PopNKeeps(Pop(q), n - 1);
    }
  }

  // ---- Runs ----

  datatype Event<C> = DelayClaim(delay: nat, claim: C) | Block | IdleTime(remaining: nat)

  function Step<C>(q: Queue<C>, readCost: nat, weightEach: nat, e: Event<C>): Queue<C>
    requires 0 < weightEach
  {
    match e
    case DelayClaim(delay, claim) => Delay(q, delay, claim)
    case Block => NewBlock(q)
    case IdleTime(remaining) => Idle(q, remaining, readCost, weightEach)
  }

  function Run<C>(q: Queue<C>, readCost: nat, weightEach: nat, es: seq<Event<C>>): Queue<C>
    requires 0 < weightEach
    decreases |es|
  {
    if es == [] then q else Run(Step(q, readCost, weightEach, es[0]), readCost, weightEach, es[1..])
  }

  predicate Delays<C>(es: seq<Event<C>>) {
    forall i :: 0 <= i < |es| && es[i].DelayClaim? ==> 1 <= es[i].delay
  }

  lemma {:induction false} RunKeeps<C>(q: Queue<C>, readCost: nat, weightEach: nat, es: seq<Event<C>>)
    requires 0 < weightEach && Inv(q) && Delays(es)
    ensures Inv(Run(q, readCost, weightEach, es))
    decreases |es|
  {
    if es != [] {
      match es[0] {
        case DelayClaim(delay, claim) => DelayKeeps(q, delay, claim);
        case Block => NewBlockKeeps(q);
        case IdleTime(remaining) =>
          if remaining > readCost { PopNKeeps(q, MaxClaims(remaining, readCost, weightEach)); }
      }
      assert Delays(es[1..]) by { forall i | 0 <= i < |es[1..]| ensures es[1..][i] == es[i + 1] {} }
      RunKeeps(Step(q, readCost, weightEach, es[0]), readCost, weightEach, es[1..]);
    }
  }

  function Fresh<C>(now: nat): Queue<C> { Queue(now, 0, map[], map[], [], map[], []) }

  /** Over any run from an empty queue, with delays of at least one block: every claim is either
      waiting under its announced block or was processed exactly once, never before that block, and
      claims were processed in the order of their blocks and ids. */
  lemma ClaimsProcessedOnceInOrder<C>(now: nat, readCost: nat, weightEach: nat, es: seq<Event<C>>)
    requires 0 < weightEach && Delays(es)
    ensures
      var q := Run(Fresh(now), readCost, weightEach, es);
      && (forall id: nat :: id < q.nextId ==> (id in q.claims) != Finished(q, id))
      && (forall k, m :: 0 <= k < m < |q.done| ==>
            q.done[k].id != q.done[m].id && q.done[k].id in q.home && q.done[m].id in q.home
            && Before(q.home[q.done[k].id], q.done[k].id, q.home[q.done[m].id], q.done[m].id))
      && (forall k :: 0 <= k < |q.done| ==> q.done[k].id in q.home && q.home[q.done[k].id] <= q.done[k].at)
      && (forall b :: b in q.ready ==> q.At(b) != [])
  {
    RunKeeps(Fresh(now), readCost, weightEach, es);
    var q := Run(Fresh(now), readCost, weightEach, es);
    forall id: nat | id < q.nextId ensures (id in q.claims) != Finished(q, id) {
      if Waiting(q, id) { assert q.home[id] in q.schedule && id in q.schedule[q.home[id]]; }
    }
  }

  function UsedWeight(readCost: nat, weightEach: nat, processed: nat): nat { readCost + weightEach * processed }

  /** The weight reported back is within what was offered. */
  lemma WeightWithinBudget(remaining: nat, readCost: nat, weightEach: nat, processed: nat)
    requires 0 < weightEach && readCost <= remaining && processed <= MaxClaims(remaining, readCost, weightEach)
    ensures UsedWeight(readCost, weightEach, processed) <= remaining
  {
    DivBounds(remaining - readCost, weightEach);
    MulMono(processed, (remaining - readCost) / weightEach, weightEach, weightEach);
  }
}
