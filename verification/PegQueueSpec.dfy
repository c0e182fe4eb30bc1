/** The delayed-claim queue of the ERC20 peg, specified by popping one claim at a time. */
module PegQueueSpec {
  import opened Prelude

  type ClaimId = nat
  type Block = nat

  const U64_MAX: nat := 0xFFFF_FFFF_FFFF_FFFF

  /** A claim that `process_claim` was called for, and the block in which that happened. */
  datatype Done = Done(id: ClaimId, at: Block)

  /** `schedule` and `ready` are as stored. `home` (the block announced for each claim) and `done`
      are histories, taken from the events and from the calls to `process_claim`. */
  datatype Queue<C> = Queue(
    now: Block,
    nextId: ClaimId,
    claims: map<ClaimId, C>,
    schedule: map<Block, seq<ClaimId>>,
    ready: seq<Block>,
    home: map<ClaimId, Block>,
    done: seq<Done>)
  {
    function At(b: Block): seq<ClaimId> { Get(schedule, b, []) }
  }

  function Exhausted<C>(q: Queue<C>): bool { q.nextId + 1 > U64_MAX }

  /** `delay_claim`: nothing happens once the claim ids have run out. */
  function Delay<C>(q: Queue<C>, delay: nat, claim: C): Queue<C> {
    if Exhausted(q) then q
    else
      var b := q.now + delay;
      q.(claims := q.claims[q.nextId := claim],
         schedule := q.schedule[b := q.At(b) + [q.nextId]],
         nextId := q.nextId + 1,
         home := q.home[q.nextId := b])
  }

  /** `on_initialize` of the next block. */
  function NewBlock<C>(q: Queue<C>): Queue<C> {
    var b := q.now + 1;
    q.(now := b, ready := if b in q.schedule then q.ready + [b] else q.ready)
  }

  /** Process the first claim of the first ready block. */
  function Pop<C>(q: Queue<C>): Queue<C> {
    if q.ready == [] || q.At(q.ready[0]) == [] then q
    else
      var b := q.ready[0];
      var ids := q.At(b);
      q.(claims := q.claims - {ids[0]},
         schedule := if |ids| == 1 then q.schedule - {b} else q.schedule[b := ids[1..]],
         ready := if |ids| == 1 then q.ready[1..] else q.ready,
         done := q.done + [Done(ids[0], q.now)])
  }

  function PopN<C>(q: Queue<C>, n: nat): Queue<C>
    decreases n
  {
    if n == 0 then q else PopN(Pop(q), n - 1)
  }

  /** How many claims the remaining weight pays for, as a u8. */
  function MaxClaims(remaining: nat, readCost: nat, weightEach: nat): nat
    requires 0 < weightEach && readCost <= remaining
  {
    Min((remaining - readCost) / weightEach, 255)
  }

  /** `on_idle`: pop as many claims as the weight allows. */
  function Idle<C>(q: Queue<C>, remaining: nat, readCost: nat, weightEach: nat): Queue<C>
    requires 0 < weightEach
  {
    if remaining <= readCost || q.ready == [] then q
    else PopN(q, MaxClaims(remaining, readCost, weightEach))
  }
}
