/** The queue as the pallet runs it: batches per block with u8 counters. */
module PegQueuePallet {
  import opened Prelude
  import opened PegQueueSpec
  import opened PegQueueSafety

  newtype u8 = x: int | 0 <= x <= 255

  lemma {:induction false} PopNAdd<C>(q: Queue<C>, m: nat, n: nat)
    ensures PopN(q, m + n) == PopN(PopN(q, m), n)
    decreases m
  {
    if m > 0 { PopNAdd(Pop(q), m - 1, n); }
  }

  lemma Compose<C>(start: Queue<C>, q: Queue<C>, r: Queue<C>, m: nat, n: nat)
    requires q == PopN(start, m) && r == PopN(q, n)
    ensures r == PopN(start, m + n)
  {
    PopNAdd(start, m, n);
  }

  /** Once no block is ready, popping more changes nothing. */
  lemma PopNEnough<C>(start: Queue<C>, q: Queue<C>, m: nat, n: nat)
    requires q == PopN(start, m) && m <= n && (m == n || q.ready == [])
    ensures q == PopN(start, n)
  {
    if m < n {
      PopNAdd(start, m, n - m);
      PopNIdle(q, n - m);
    }
  }

  lemma {:induction false} PopNIdle<C>(q: Queue<C>, n: nat)
    requires q.ready == []
    ensures PopN(q, n) == q
    decreases n
  {
    if n > 0 { PopNIdle(q, n - 1); }
  }

  function Dones(ids: seq<ClaimId>, at: Block): (r: seq<Done>)
    ensures |r| == |ids| && forall k :: 0 <= k < |ids| ==> r[k] == Done(ids[k], at)
  {
    seq(|ids|, k requires 0 <= k < |ids| => Done(ids[k], at))
  }

  /** What popping `n` claims, all of the first ready block, comes to in one go. */
  function Batch<C>(q: Queue<C>, n: nat): Queue<C>
    requires q.ready != [] && n <= |q.At(q.ready[0])|
  {
    var (b, ids) := (q.ready[0], q.At(q.ready[0]));
    q.(claims := q.claims - (set i | i in ids[..n]),
       schedule := if n == |ids| then q.schedule - {b} else q.schedule[b := ids[n..]],
       ready := if n == |ids| then q.ready[1..] else q.ready,
       done := q.done + Dones(ids[..n], q.now))
  }

  lemma {:induction false} BatchIsPopN<C>(q: Queue<C>, n: nat)
    requires q.ready != [] && q.ready[0] in q.schedule && n <= |q.At(q.ready[0])| && q.At(q.ready[0]) != []
    ensures PopN(q, n) == Batch(q, n)
    decreases n
  {
    var (b, ids) := (q.ready[0], q.At(q.ready[0]));
    if n == 0 {
      assert ids[0..] == ids;
      assert q.schedule[b := ids] == q.schedule;
    } else {
      var p := Pop(q);
      if n == 1 {
        assert ids[..1] == [ids[0]];
        assert Dones([ids[0]], q.now) == [Done(ids[0], q.now)];
        assert PopN(q, 1) == PopN(p, 0);
      } else {
        assert p.At(b) == ids[1..] && p.ready == q.ready;
        BatchIsPopN(p, n - 1);
        BatchShift(q, n);
      }
    }
  }

  lemma BatchShift<C>(q: Queue<C>, n: nat)
    requires q.ready != [] && q.ready[0] in q.schedule && 2 <= n <= |q.At(q.ready[0])|
    ensures Pop(q).ready == q.ready && Pop(q).At(q.ready[0]) == q.At(q.ready[0])[1..]
    ensures Batch(Pop(q), n - 1) == Batch(q, n)
  {
    var (b, ids, p) := (q.ready[0], q.At(q.ready[0]), Pop(q));
    var (x, y) := (Batch(p, n - 1), Batch(q, n));
    assert p.At(b) == ids[1..];
    assert ids[..n] == [ids[0]] + ids[1..][..n - 1];
    assert x.claims == y.claims;
    assert ids[1..][n - 1..] == ids[n..];
    assert x.schedule == y.schedule;
    assert x.done == y.done;
  }

  ghost predicate HeadLoaded<C>(q: Queue<C>) {
    q.ready != [] ==> q.ready[0] in q.schedule && q.schedule[q.ready[0]] != []
  }

  /** However many claims are popped, the next ready block has claims, so each finished block
      accounts for at least one of them. */
  ghost predicate AlwaysLoaded<C>(q: Queue<C>) { forall n: nat :: HeadLoaded(PopN(q, n)) }

  lemma ReadyBlocksLoaded<C>(q: Queue<C>)
    requires Inv(q)
    ensures AlwaysLoaded(q)
  {
    forall n: nat ensures HeadLoaded(PopN(q, n)) {
      PopNKeeps(q, n);
      var r := PopN(q, n);
      if r.ready != [] { assert r.ready[0] in r.ready; }
    }
  }

  class Scheduler<C(==)> {
    var now: Block
    var nextId: ClaimId
    var claims: map<ClaimId, C>
    var schedule: map<Block, seq<ClaimId>>
    var ready: seq<Block>
    ghost var home: map<ClaimId, Block>
    ghost var done: seq<Done>

    ghost function View(): Queue<C>
      reads this
    {
      Queue(now, nextId, claims, schedule, ready, home, done)
    }

    constructor (start: Block)
      ensures View() == Fresh(start)
    {
      now, nextId, claims, schedule, ready, home, done := start, 0, map[], map[], [], map[], [];
    }

    method DelayClaim(delay: nat, claim: C)
      modifies this
      ensures View() == Delay(old(View()), delay, claim)
    {
      var id := nextId;
      if id + 1 > U64_MAX { return; }
      var block := now + delay;
      claims := claims[id := claim];
      schedule := schedule[block := Get(schedule, block, []) + [id]];
      nextId := id + 1;
      home := home[id := block];
    }

    method OnInitialize()
      modifies this
      ensures View() == NewBlock(old(View()))
    {
      now := now + 1;
      if now in schedule { ready := ready + [now]; }
    }

    /** `process_claim` for each of `ids`; what a claim does when processed is not the queue's concern. */
    method ProcessAll(ids: seq<ClaimId>)
      modifies this`claims, this`done
      ensures claims == old(claims) - (set i | i in ids)
      ensures done == old(done) + Dones(ids, now)
    {
      ghost var before := done;
      for i := 0 to |ids|
        invariant claims == old(claims) - (set j | j in ids[..i])
        invariant done == before + Dones(ids[..i], now)
      {
        assert ids[..i + 1] == ids[..i] + [ids[i]];
        claims := claims - {ids[i]};
        done := done + [Done(ids[i], now)];
      }
      assert ids[..|ids|] == ids;
    }

    /** One turn of the loop: take the block's claims, put back what the budget does not cover, and
        process the rest. `finished` tells whether nothing was put back. */
    method Turn(block: Block, budget: nat, ghost pending: seq<Block>) returns (taken: nat, finished: bool)
      requires block in schedule && schedule[block] != [] && pending != [] && pending[0] == block
      modifies this`claims, this`schedule, this`done
      ensures taken == Min(|old(schedule)[block]|, budget) && (finished <==> |old(schedule)[block]| <= budget)
      ensures View().(ready := if finished then pending[1..] else pending)
        == PopN(old(View()).(ready := pending), taken)
    {
      ghost var q := View().(ready := pending);
      var ids := schedule[block];
      ghost var all := ids;
      schedule := schedule - {block};
      finished := |ids| <= budget;
      if !finished {
        schedule := schedule[block := ids[budget..]];
        ids := ids[..budget];
      }
      taken := |ids|;
      assert ids == all[..taken];
      ProcessAll(ids);
      BatchIsPopN(q, taken);
    }

    /** The loop over the ready blocks. The counters are u8s; the additions are proved not to wrap. */
    method ProcessReady(maxClaims: u8) returns (processed: u8)
      requires AlwaysLoaded(View())
      modifies this`claims, this`schedule, this`ready, this`done
      ensures View() == PopN(old(View()), maxClaims as nat)
      ensures processed <= maxClaims
    {
      processed := 0;
      var blocks: u8 := 0;
      var i := 0;
      ghost var start := View();
      assert ready[0..] == ready;
      while i < |ready|
        invariant i == blocks as int <= |ready|
        invariant blocks <= processed <= maxClaims
        invariant ready == start.ready
        invariant View().(ready := ready[i..]) == PopN(start, processed as nat)
      {
        ghost var q := View().(ready := ready[i..]);
        assert HeadLoaded(PopN(start, processed as nat));
        var taken, finished := Turn(ready[i], (maxClaims - processed) as nat, q.ready);
        assert q.ready[1..] == ready[i + 1..];
        Compose(start, q, View().(ready := if finished then q.ready[1..] else q.ready), processed as nat, taken);
        processed := processed + taken as u8;
        if finished { blocks := blocks + 1; }
        i := i + 1;
        if processed >= maxClaims { break; }
      }
      ready := ready[blocks as nat..];
      PopNEnough(start, View(), processed as nat, maxClaims as nat);
    }

    /** Process as many ready claims as the remaining weight allows, and report the weight used. */
    method OnIdle(remaining: nat, readCost: nat, weightEach: nat) returns (used: nat)
      requires 0 < weightEach && Inv(View())
      modifies this`claims, this`schedule, this`ready, this`done
      ensures View() == Idle(old(View()), remaining, readCost, weightEach)
      ensures used <= remaining
    {
      if remaining <= readCost || |ready| == 0 { return 0; }
      var maxClaims := MaxClaims(remaining, readCost, weightEach);
      ReadyBlocksLoaded(View());
      var processed := ProcessReady(maxClaims as u8);
      used := UsedWeight(readCost, weightEach, processed as nat);
      WeightWithinBudget(remaining, readCost, weightEach, processed as nat);
    }
  }
}
