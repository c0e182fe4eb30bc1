/** Account statements: over any run, what an account holds free and in reserve is its opening balance plus
    the entries of the operations that name it. */
module AssetStatements {
  import opened Prelude
  import opened MapSum
  import opened AssetLocks
  import opened AssetLedger
  import opened AssetConservation

  function Debit(who: AccountId, amount: nat, x: AccountId): int { if x == who then 0 - amount else 0 }

  function Credit(who: AccountId, amount: nat, x: AccountId): int { if x == who then amount else 0 }

  /** What an operation that would leave `left` takes from the free balance of `who`: less than the existential
      deposit is not left but goes to the dust account. */
  function Taken(l: Ledger, dust: AccountId, who: AccountId, amount: nat, x: AccountId): int {
    if l.Free(who) < amount + l.existentialDeposit
    then Debit(who, l.Free(who), x) + Credit(dust, SatSub(l.Free(who), amount), x) else Debit(who, amount, x)
  }

  /** What a successful operation puts on the free balance of `x`. */
  function FreeEntry(l: Ledger, dust: AccountId, op: Op, x: AccountId): int {
    match op
    case MintOp(_, to, n) => Credit(to, n, x)
    case BurnOp(_, from, n) => Debit(from, n, x)
    case TransferOp(from, to, n) => if from == to then 0 else Credit(to, n, x) + Taken(l, dust, from, n, x)
    case ReserveOp(who, n) => ReclaimedEntry(l, dust, who, n, x)
    case UnreserveOp(who, n) => Credit(who, Min(l.Reserved(who), n), x)
    case SlashOp(who, n) => Debit(who, Min(l.Free(who), n), x)
    case SlashReservedOp(who, n) => 0
    case RepatriateOp(p, b, n) => Credit(b, Min(l.Reserved(p), n), x)
    case SetFreeOp(who, b) => Debit(who, l.Free(who), x) + Credit(who, b, x)
    case DepositOp(who, n) => Credit(who, n, x)
    case WithdrawOp(who, n, _) => Debit(who, n, x)
    case CurrencyWithdrawOp(who, n, _) => ReclaimedEntry(l, dust, who, n, x)
    case IssueOp(_) => 0
    case CurrencyBurnOp(_) => 0
  }

  /** Here the dust account gets the whole balance from before. */
  function ReclaimedEntry(l: Ledger, dust: AccountId, who: AccountId, amount: nat, x: AccountId): int {
    if l.Free(who) < amount + l.existentialDeposit
    then Debit(who, l.Free(who), x) + Credit(dust, l.Free(who), x) else Debit(who, amount, x)
  }

  /** What it puts on the reserved balance of `x`. */
  function ReservedEntry(l: Ledger, op: Op, x: AccountId): int {
    match op
    case ReserveOp(who, n) => Credit(who, n, x)
    case UnreserveOp(who, n) => Debit(who, Min(l.Reserved(who), n), x)
    case SlashOp(who, n) => Debit(who, Min(l.Reserved(who), SatSub(n, l.Free(who))), x)
    case SlashReservedOp(who, n) => Debit(who, Min(l.Reserved(who), n), x)
    case RepatriateOp(p, _, n) => Debit(p, Min(l.Reserved(p), n), x)
    case _ => 0
  }

  function PostedFree(l: Ledger, a: AssetId, dust: AccountId, op: Op, x: AccountId): int {
    if Perform(l, a, dust, op).Ok? then FreeEntry(l, dust, op, x) else 0
  }

  function PostedReserved(l: Ledger, a: AssetId, dust: AccountId, op: Op, x: AccountId): int {
    if Perform(l, a, dust, op).Ok? then ReservedEntry(l, op, x) else 0
  }

  // ---- One operation ----

  lemma FreeAfterReclaim(l: Ledger, dust: AccountId, who: AccountId, x: AccountId)
    requires Supply(l) <= U128_MAX
    ensures ReclaimFree(l, dust, who).Free(x) ==
      l.Free(x) + Debit(who, l.Free(who), x) + Credit(dust, l.Free(who), x)
    ensures ReclaimFree(l, dust, who).reserved == l.reserved
  {
    FreeWithinSupply(l, who, dust);
  }

  lemma FreeWithinSupply(l: Ledger, x: AccountId, y: AccountId)
    ensures x != y ==> l.Free(x) + l.Free(y) <= Supply(l)
    ensures l.Free(x) <= Supply(l)
  {
    SumAtLeast(l.free, x);
    if x != y { SumAtLeastTwo(l.free, x, y); }
  }

  lemma CarryPosts(l: Ledger, dust: AccountId, from: AccountId, to: AccountId, n: nat, x: AccountId)
    requires Supply(l) <= U128_MAX && from != to && n <= l.Free(from)
    ensures
      var t := Carry(l, dust, from, to, l.Free(from) - n, l.Free(to) + n);
      t.Free(x) == l.Free(x) + Credit(to, n, x) + Taken(l, dust, from, n, x) && t.reserved == l.reserved
  {
    var left := l.Free(from) - n;
    var paid := l.WithFree(to, l.Free(to) + n);
    var moved := paid.WithFree(from, left);
    SupplyFree(l, to, l.Free(to) + n);
    SupplyFree(paid, from, left);
    if left < l.existentialDeposit { FreeAfterReclaim(moved, dust, from, x); }
  }

  lemma TransferPosts(l: Ledger, a: AssetId, dust: AccountId, op: Op, x: AccountId)
    requires op.TransferOp? && Supply(l) <= U128_MAX && Perform(l, a, dust, op).Ok?
    ensures
      var t := Perform(l, a, dust, op).value.ledger;
      t.Free(x) == l.Free(x) + FreeEntry(l, dust, op, x) && t.reserved == l.reserved
  {
    var (from, to, n, t) := (op.from, op.to, op.amount, Perform(l, a, dust, op).value.ledger);
    if from != to {
      assert t == Carry(l, dust, from, to, l.Free(from) - n, l.Free(to) + n);
      CarryPosts(l, dust, from, to, n, x);
    } else {
      assert t == l;
    }
  }

  lemma ReclaimPosts(l: Ledger, a: AssetId, dust: AccountId, op: Op, x: AccountId)
    requires op.ReserveOp? || op.CurrencyWithdrawOp?
    requires Supply(l) <= U128_MAX && Perform(l, a, dust, op).Ok?
    ensures
      var t := Perform(l, a, dust, op).value.ledger;
      t.Free(x) == l.Free(x) + FreeEntry(l, dust, op, x) && t.Reserved(x) == l.Reserved(x) + ReservedEntry(l, op, x)
  {
    FreeAfterReclaim(l, dust, op.who, x);
  }

  lemma HoldPosts(l: Ledger, a: AssetId, dust: AccountId, op: Op, x: AccountId)
    requires op.UnreserveOp? || op.RepatriateOp? || op.SlashReservedOp? || op.SlashOp?
    ensures
      var t := Perform(l, a, dust, op).value.ledger;
      t.Free(x) == l.Free(x) + FreeEntry(l, dust, op, x) && t.Reserved(x) == l.Reserved(x) + ReservedEntry(l, op, x)
  {
    match op
    case UnreserveOp(who, n) => MovePosts(l, a, dust, op, x);
    case RepatriateOp(p, b, n) => MovePosts(l, a, dust, op, x);
    case SlashReservedOp(who, n) => ReserveAfter(l, who, l.Reserved(who) - Min(l.Reserved(who), n), x);
    case SlashOp(who, n) => SlashPosts(l, a, who, n, x);
  }

  lemma ReserveAfter(l: Ledger, who: AccountId, v: nat, x: AccountId)
    ensures
      var t := l.WithReserved(who, v);
      t.Free(x) == l.Free(x) && t.Reserved(x) == if x == who then v else l.Reserved(x)
  {
  }

  lemma MovePosts(l: Ledger, a: AssetId, dust: AccountId, op: Op, x: AccountId)
    requires op.UnreserveOp? || op.RepatriateOp?
    ensures
      var t := Perform(l, a, dust, op).value.ledger;
      t.Free(x) == l.Free(x) + FreeEntry(l, dust, op, x) && t.Reserved(x) == l.Reserved(x) + ReservedEntry(l, op, x)
  {
  }

  lemma SlashPosts(l: Ledger, a: AssetId, who: AccountId, n: nat, x: AccountId)
    ensures
      var (t, op) := (Slash(l, a, who, n).ledger, SlashOp(who, n));
      t.Free(x) == l.Free(x) + FreeEntry(l, 0, op, x) && t.Reserved(x) == l.Reserved(x) + ReservedEntry(l, op, x)
  {
    var v := Min(l.Free(who), n);
    var first := l.WithFree(who, l.Free(who) - v);
    if v < n { ReserveAfter(first, who, l.Reserved(who) - Min(l.Reserved(who), n - v), x); }
  }

  lemma PlainPosts(l: Ledger, a: AssetId, dust: AccountId, op: Op, x: AccountId)
    requires op.MintOp? || op.BurnOp? || op.SetFreeOp? || op.DepositOp? || op.WithdrawOp? || op.IssueOp?
      || op.CurrencyBurnOp?
    requires Perform(l, a, dust, op).Ok?
    ensures
      var t := Perform(l, a, dust, op).value.ledger;
      t.Free(x) == l.Free(x) + FreeEntry(l, dust, op, x) && t.reserved == l.reserved
  {
  }

  lemma DropLeaves(l: Ledger, i: Imbalance)
    ensures DropInto(l, i) == l.(issuance := DropInto(l, i).issuance)
  {
  }

  /** Every operation posts its entries, on the free and on the reserved balance of every account. */
  lemma OperationPosts(l: Ledger, a: AssetId, dust: AccountId, op: Op, x: AccountId)
    requires Supply(l) <= U128_MAX
    ensures
      var t := SettledLedger(l, a, dust, op);
      && t.Free(x) == l.Free(x) + PostedFree(l, a, dust, op, x)
      && t.Reserved(x) == l.Reserved(x) + PostedReserved(l, a, dust, op, x)
  {
    var r := Perform(l, a, dust, op);
    if r.Ok? {
      if r.value.made != [] { DropLeaves(r.value.ledger, r.value.made[0]); }
      match op
      case TransferOp(_, _, _) => TransferPosts(l, a, dust, op, x);
      case ReserveOp(_, _) => ReclaimPosts(l, a, dust, op, x);
      case CurrencyWithdrawOp(_, _, _) => ReclaimPosts(l, a, dust, op, x);
      case UnreserveOp(_, _) => HoldPosts(l, a, dust, op, x);
      case RepatriateOp(_, _, _) => HoldPosts(l, a, dust, op, x);
      case SlashReservedOp(_, _) => HoldPosts(l, a, dust, op, x);
      case SlashOp(_, _) => HoldPosts(l, a, dust, op, x);
      case _ => PlainPosts(l, a, dust, op, x);
    }
  }

  /** Nothing is lost between what was asked and what is returned: the rest an operation reports is what it could
      not take, and a slash turns to the reserve only when nothing is left free. */
  lemma RestsAddUp(l: Ledger, a: AssetId, who: AccountId, to: AccountId, n: nat)
    ensures
      var t := Unreserve(l, who, n).ledger;
      UnreserveRest(l, who, n) + (t.Free(who) - l.Free(who)) == n && t.Reserved(who) <= l.Reserved(who)
    ensures
      var t := SlashReserved(l, a, who, n).ledger;
      SlashReservedRest(l, who, n) + (l.Reserved(who) - t.Reserved(who)) == n
    ensures
      var t := Slash(l, a, who, n).ledger;
      && SlashRest(l, who, n) + (l.Free(who) - t.Free(who)) + (l.Reserved(who) - t.Reserved(who)) == n
      && (t.Reserved(who) < l.Reserved(who) ==> t.Free(who) == 0)
    ensures
      var t := RepatriateReserved(l, who, to, n).ledger;
      && t.Free(to) - l.Free(to) == l.Reserved(who) - t.Reserved(who) == n - UnreserveRest(l, who, n)
  {
    HoldPosts(l, a, 0, UnreserveOp(who, n), who);
    HoldPosts(l, a, 0, SlashReservedOp(who, n), who);
    HoldPosts(l, a, 0, SlashOp(who, n), who);
    HoldPosts(l, a, 0, RepatriateOp(who, to, n), who);
    HoldPosts(l, a, 0, RepatriateOp(who, to, n), to);
  }

  /** What an operation does to the issuance itself; everything else it leaves to the imbalances it hands out. */
  function IssuanceEntry(l: Ledger, op: Op): int {
    match op
    case MintOp(_, _, n) => n
    case BurnOp(_, _, n) => 0 - n
    case IssueOp(n) => Min(n, SatSub(U128_MAX, l.issuance))
    case _ => 0
  }

  /** Issuance after an operation, and the imbalances of the two operations that touch no balance. */
  lemma IssuancePosts(l: Ledger, a: AssetId, dust: AccountId, op: Op)
    requires l.issuance <= U128_MAX && Perform(l, a, dust, op).Ok?
    ensures
      var e := Perform(l, a, dust, op).value;
      && e.ledger.issuance == l.issuance + IssuanceEntry(l, op)
      && (op.IssueOp? ==> Net(e.made, a) == 0 - IssuanceEntry(l, op))
      && (op.CurrencyBurnOp? ==> Net(e.made, a) == Min(op.amount, l.issuance))
  {
    match op
    case TransferOp(from, to, n) =>
    case SlashOp(who, n) =>
    case IssueOp(n) => NetOne(Issue(l, a, n).made[0], a);
    case CurrencyBurnOp(n) => NetOne(CurrencyBurn(l, a, n).made[0], a);
    case _ =>
  }

  // ---- When an operation is allowed ----

  /** Enough free balance, and no lock of the account's own against it. */
  predicate MayLeave(l: Ledger, who: AccountId, amount: nat, reasons: Reasons) {
    amount <= l.Free(who) && (amount == 0 || Required(l.LocksOf(who), reasons) <= l.Free(who) - amount)
  }

  /** Only the minter mints and only the burner burns, within 128 bits; balances and locks allow the rest. */
  predicate Allowed(l: Ledger, op: Op) {
    match op
    case MintOp(who, to, n) => l.minter == Some(who) && Max(l.issuance, l.Free(to)) + n <= U128_MAX
    case BurnOp(who, from, n) => l.burner == Some(who) && n <= Min(l.issuance, l.Free(from))
    case TransferOp(from, to, n) => MayLeave(l, from, n, Misc) && l.Free(to) + n <= U128_MAX
    case ReserveOp(who, n) => n <= l.Free(who)
    case WithdrawOp(who, n, r) => n == 0 || MayLeave(l, who, n, FromWithdraw(r))
    case CurrencyWithdrawOp(who, n, r) => MayLeave(l, who, n, FromWithdraw(r))
    case _ => true
  }

  /** An operation succeeds exactly when it is allowed, and nothing changes when it is not. */
  lemma DoneIfAllowed(l: Ledger, a: AssetId, dust: AccountId, op: Op)
    ensures Perform(l, a, dust, op).Ok? <==> Allowed(l, op)
    ensures !Allowed(l, op) ==> SettledLedger(l, a, dust, op) == l
  {
    match op
    case TransferOp(from, to, n) =>
      assert FromWithdraw({Transfer}) == Misc;
      WithdrawalRule(l.LocksOf(from), n, {Transfer}, SatSub(l.Free(from), n));
    case WithdrawOp(who, n, r) => WithdrawalRule(l.LocksOf(who), n, r, SatSub(l.Free(who), n));
    case CurrencyWithdrawOp(who, n, r) => WithdrawalRule(l.LocksOf(who), n, r, SatSub(l.Free(who), n));
    case _ =>
  }

  /** A transfer or withdrawal leaves its account at least what the account's locks require, exactly when the
      remainder is not swept away as dust. */
  lemma LocksHold(l: Ledger, a: AssetId, dust: AccountId, op: Op)
    requires (op.TransferOp? && op.from != op.to) || op.WithdrawOp? || op.CurrencyWithdrawOp?
    requires Supply(l) <= U128_MAX && 0 < op.amount && Allowed(l, op)
    ensures
      var (who, r) := if op.TransferOp? then (op.from, Misc) else (op.who, FromWithdraw(op.reasons));
      var swept := !op.WithdrawOp? && l.Free(who) < op.amount + l.existentialDeposit && who != dust;
      && Required(l.LocksOf(who), r) <= l.Free(who) - op.amount
      && (Required(l.LocksOf(who), r) <= SettledLedger(l, a, dust, op).Free(who) <==>
          !swept || Required(l.LocksOf(who), r) == 0)
  {
    var who := if op.TransferOp? then op.from else op.who;
    DoneIfAllowed(l, a, dust, op);
    OperationPosts(l, a, dust, op, who);
  }

  /** Ten units with three of them locked, and an existential deposit of five. */
  const LOCKED: Ledger := Ledger(10, 5, None, None, map[1 := 10], map[], map[1 := [Lock(0, 3, All)]])

  /** A transfer of seven respects the lock, and the three locked units go to the dust account. */
  lemma LockedDustSwept()
    ensures
      var t := SettledLedger(LOCKED, 0, 2, TransferOp(1, 3, 7));
      Required(LOCKED.LocksOf(1), Misc) == 3 && Perform(LOCKED, 0, 2, TransferOp(1, 3, 7)).Ok?
        && t.Free(1) == 0 && t.Free(2) == 3 && t.Free(3) == 7
  {
    var (l, lock) := (LOCKED, Lock(0, 3, All));
    assert l.LocksOf(1) == [lock] && [lock][1..] == [];
    AppliesMeans(lock, Misc);
    assert Required([], Misc) == 0 && Required([lock], Misc) == 3;
    DoneIfAllowed(l, 0, 2, TransferOp(1, 3, 7));
  }

  /** No operation changes who may mint or burn, the existential deposit, or any lock. */
  lemma RightsKept(l: Ledger, a: AssetId, dust: AccountId, op: Op)
    ensures SameRights(l, SettledLedger(l, a, dust, op))
  {
    var r := Perform(l, a, dust, op);
    if r.Ok? {
      PerformKeepsRights(l, a, dust, op);
      if r.value.made != [] { DropLeaves(r.value.ledger, r.value.made[0]); }
    }
  }

  predicate SameRights(l: Ledger, t: Ledger) {
    t.minter == l.minter && t.burner == l.burner && t.existentialDeposit == l.existentialDeposit && t.locks == l.locks
  }

  lemma PerformKeepsRights(l: Ledger, a: AssetId, dust: AccountId, op: Op)
    requires Perform(l, a, dust, op).Ok?
    ensures SameRights(l, Perform(l, a, dust, op).value.ledger)
  {
    match op
    case TransferOp(from, to, n) =>
    case SlashOp(who, n) =>
    case ReserveOp(who, n) =>
    case _ =>
  }

  // ---- Runs ----

  /** The entries of a run on the free balance of `x` in asset `a`. */
  function Statement(s: State, ops: seq<(AssetId, Op)>, a: AssetId, x: AccountId): int
    decreases |ops|
  {
    if ops == [] then 0
    else
      (if ops[0].0 == a then PostedFree(s.LedgerOf(a), a, s.dust, ops[0].1, x) else 0)
      + Statement(Settled(s, ops[0].0, ops[0].1), ops[1..], a, x)
  }

  /** And on the reserved one. */
  function HeldStatement(s: State, ops: seq<(AssetId, Op)>, a: AssetId, x: AccountId): int
    decreases |ops|
  {
    if ops == [] then 0
    else
      (if ops[0].0 == a then PostedReserved(s.LedgerOf(a), a, s.dust, ops[0].1, x) else 0)
      + HeldStatement(Settled(s, ops[0].0, ops[0].1), ops[1..], a, x)
  }

  /** What is held of asset `a` fits 128 bits whenever one of the operations meets it. */
  ghost predicate SupplyFits(s: State, ops: seq<(AssetId, Op)>, a: AssetId)
    decreases |ops|
  {
    ops == [] || (
      && (ops[0].0 == a ==> Supply(s.LedgerOf(a)) <= U128_MAX)
      && SupplyFits(Settled(s, ops[0].0, ops[0].1), ops[1..], a))
  }

  /** Over any run, for every asset and account: the closing free and reserved balances are the opening ones plus
      the entries posted in between. */
  lemma {:induction false} StatementBalances(s: State, ops: seq<(AssetId, Op)>, a: AssetId, x: AccountId)
    requires SupplyFits(s, ops, a)
    ensures
      var (l, t) := (s.LedgerOf(a), SettledRun(s, ops).LedgerOf(a));
      && t.Free(x) == l.Free(x) + Statement(s, ops, a, x)
      && t.Reserved(x) == l.Reserved(x) + HeldStatement(s, ops, a, x)
    decreases |ops|
  {
    if ops != [] {
      var (b, op) := ops[0];
      if b == a { OperationPosts(s.LedgerOf(a), a, s.dust, op, x); }
      StatementBalances(Settled(s, b, op), ops[1..], a, x);
    }
  }

  /** Over any run, who may mint or burn an asset and its locks stay as they were. */
  lemma {:induction false} RunKeepsRights(s: State, ops: seq<(AssetId, Op)>, a: AssetId)
    ensures SameRights(s.LedgerOf(a), SettledRun(s, ops).LedgerOf(a))
    decreases |ops|
  {
    if ops != [] {
      var (b, op) := ops[0];
      if b == a { RightsKept(s.LedgerOf(a), a, s.dust, op); }
      RunKeepsRights(Settled(s, b, op), ops[1..], a);
    }
  }

  /** Whether an operation can touch the funds of `x`. */
  predicate Names(op: Op, x: AccountId) {
    match op
    case MintOp(_, to, _) => x == to
    case BurnOp(_, from, _) => x == from
    case TransferOp(from, to, _) => x == from || x == to
    case RepatriateOp(p, b, _) => x == p || x == b
    case IssueOp(_) => false
    case CurrencyBurnOp(_) => false
    case ReserveOp(who, _) => x == who
    case UnreserveOp(who, _) => x == who
    case SlashOp(who, _) => x == who
    case SlashReservedOp(who, _) => x == who
    case SetFreeOp(who, _) => x == who
    case DepositOp(who, _) => x == who
    case WithdrawOp(who, _, _) => x == who
    case CurrencyWithdrawOp(who, _, _) => x == who
  }

  lemma BystanderOfMoves(l: Ledger, a: AssetId, dust: AccountId, op: Op, x: AccountId)
    requires op.TransferOp? || op.RepatriateOp? || op.ReserveOp? || op.UnreserveOp? || op.SlashReservedOp?
    requires x != dust && !Names(op, x)
    ensures
      var t := SettledLedger(l, a, dust, op);
      t.Free(x) == l.Free(x) && t.Reserved(x) == l.Reserved(x)
  {
    match op
    case TransferOp(from, to, n) =>
    case RepatriateOp(who, to, n) =>
    case ReserveOp(who, n) =>
    case UnreserveOp(who, n) =>
    case SlashReservedOp(who, n) =>
  }

  lemma BystanderKept(l: Ledger, a: AssetId, dust: AccountId, op: Op, x: AccountId)
    requires x != dust && !Names(op, x)
    ensures
      var t := SettledLedger(l, a, dust, op);
      t.Free(x) == l.Free(x) && t.Reserved(x) == l.Reserved(x)
  {
    if op.TransferOp? || op.RepatriateOp? || op.ReserveOp? || op.UnreserveOp? || op.SlashReservedOp? {
      BystanderOfMoves(l, a, dust, op, x);
    }
  }

  /** Over any run, the funds of an account no operation names, other than the dust account, stay put. */
  lemma {:induction false} BystandersUntouched(s: State, ops: seq<(AssetId, Op)>, a: AssetId, x: AccountId)
    requires x != s.dust && forall i :: 0 <= i < |ops| ==> !Names(ops[i].1, x)
    ensures
      var (l, t) := (s.LedgerOf(a), SettledRun(s, ops).LedgerOf(a));
      t.Free(x) == l.Free(x) && t.Reserved(x) == l.Reserved(x)
    decreases |ops|
  {
    if ops != [] {
      var (b, op) := ops[0];
      if b == a { BystanderKept(s.LedgerOf(a), a, s.dust, op, x); }
      BystandersUntouched(Settled(s, b, op), ops[1..], a, x);
    }
  }
}
