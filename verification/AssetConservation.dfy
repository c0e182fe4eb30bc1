/** Conservation of every asset over runs of ledger and imbalance operations. */
module AssetConservation {
  import opened Prelude
  import opened MapSum
  import opened AssetLocks
  import opened AssetLedger

  /** All that the accounts of one asset hold. */
  ghost function Supply(l: Ledger): nat { Sum(l.free) + Sum(l.reserved) }

  function Signed(i: Imbalance, a: AssetId): int {
    if i.asset != a then 0 else if i.Positive? then i.amount else -(i.amount as int)
  }

  /** The net effect on the issuance of `a` that outstanding imbalances will have when dropped. */
  function Net(outs: seq<Imbalance>, a: AssetId): int {
    if outs == [] then 0 else Net(outs[..|outs| - 1], a) + Signed(outs[|outs| - 1], a)
  }

  lemma {:induction false} NetConcat(x: seq<Imbalance>, y: seq<Imbalance>, a: AssetId)
    ensures Net(x + y, a) == Net(x, a) + Net(y, a)
  {
    if y == [] {
      assert x + y == x;
    } else {
      assert (x + y)[..|x + y| - 1] == x + y[..|y| - 1];
      NetConcat(x, y[..|y| - 1], a);
    }
  }

  lemma NetOne(i: Imbalance, a: AssetId)
    ensures Net([i], a) == Signed(i, a)
  {
    assert [i][..0] == [];
  }

  // ---- How single balances move the supply ----

  lemma SupplyFree(l: Ledger, who: AccountId, v: nat)
    ensures Supply(l.WithFree(who, v)) + l.Free(who) == Supply(l) + v
  {
    SumUpdate(l.free, who, v);
  }

  lemma SupplyReserved(l: Ledger, who: AccountId, v: nat)
    ensures Supply(l.WithReserved(who, v)) + l.Reserved(who) == Supply(l) + v
    ensures Supply(l.(reserved := l.reserved[who := v])) + l.Reserved(who) == Supply(l) + v
  {
    SumUpdate(l.reserved, who, v);
    SumErase(l.reserved, who);
  }

  /** Reclaiming dust moves it: nothing is lost as long as the supply fits a u128. */
  lemma SupplyReclaim(l: Ledger, dust: AccountId, who: AccountId)
    requires Supply(l) <= U128_MAX
    ensures Supply(ReclaimFree(l, dust, who)) == Supply(l)
    ensures ReclaimFree(l, dust, who).reserved == l.reserved && ReclaimFree(l, dust, who).issuance == l.issuance
  {
    var taken := l.(free := l.free - {who});
    SumErase(l.free, who);
    SumAtLeast(taken.free, dust);
    SupplyFree(taken, dust, SatAdd(taken.Free(dust), l.Free(who)));
  }

  // ---- Operations on one asset ----

  datatype Op =
    | MintOp(who: AccountId, to: AccountId, amount: nat)
    | BurnOp(who: AccountId, from: AccountId, amount: nat)
    | TransferOp(from: AccountId, to: AccountId, amount: nat)
    | ReserveOp(who: AccountId, amount: nat)
    | UnreserveOp(who: AccountId, amount: nat)
    | SlashOp(who: AccountId, amount: nat)
    | SlashReservedOp(who: AccountId, amount: nat)
    | RepatriateOp(payee: AccountId, beneficiary: AccountId, amount: nat)
    | SetFreeOp(who: AccountId, balance: nat)
    | DepositOp(who: AccountId, amount: nat)
    | WithdrawOp(who: AccountId, amount: nat, reasons: set<WithdrawReason>)
    | CurrencyWithdrawOp(who: AccountId, amount: nat, reasons: set<WithdrawReason>)
    | IssueOp(amount: nat)
    | CurrencyBurnOp(amount: nat)

  function Perform(l: Ledger, a: AssetId, dust: AccountId, op: Op): Result<Effect, Error> {
    match op
    case MintOp(who, to, x) => MintFree(l, who, to, x)
    case BurnOp(who, from, x) => BurnFree(l, who, from, x)
    case TransferOp(from, to, x) => MakeTransfer(l, dust, from, to, x)
    case ReserveOp(who, x) => ReserveFunds(l, dust, who, x)
    case UnreserveOp(who, x) => Ok(Unreserve(l, who, x))
    case SlashOp(who, x) => Ok(Slash(l, a, who, x))
    case SlashReservedOp(who, x) => Ok(SlashReserved(l, a, who, x))
    case RepatriateOp(p, b, x) => Ok(RepatriateReserved(l, p, b, x))
    case SetFreeOp(who, b) => Ok(MakeFreeBalanceBe(l, a, who, b))
    case DepositOp(who, x) => Ok(DepositCreating(l, a, who, x))
    case WithdrawOp(who, x, r) => Withdraw(l, a, who, x, r)
    case CurrencyWithdrawOp(who, x, r) => CurrencyWithdraw(l, a, dust, who, x, r)
    case IssueOp(x) => Ok(Issue(l, a, x))
    case CurrencyBurnOp(x) => Ok(CurrencyBurn(l, a, x))
  }

  /** The three code paths that break the books: reserving or withdrawing down to dust, and
      `AssetCurrency::burn`, each with a non-zero amount. */
  predicate Harmless(l: Ledger, op: Op) {
    match op
    case ReserveOp(who, x) => l.Free(who) < x + l.existentialDeposit ==> x == 0
    case CurrencyWithdrawOp(who, x, _) => l.Free(who) < x + l.existentialDeposit ==> x == 0
    case CurrencyBurnOp(x) => Min(x, l.issuance) == 0
    case _ => true
  }

  /** The supply moves in step with the issuance and the imbalances handed out. */
  ghost predicate Balanced(l: Ledger, a: AssetId, e: Effect) {
    Supply(e.ledger) - Supply(l) == e.ledger.issuance - l.issuance + Net(e.made, a)
  }

  lemma TransferBalanced(l: Ledger, a: AssetId, dust: AccountId, from: AccountId, to: AccountId, amount: nat)
    requires Supply(l) <= U128_MAX && MakeTransfer(l, dust, from, to, amount).Ok?
    ensures Balanced(l, a, MakeTransfer(l, dust, from, to, amount).value)
    ensures Supply(MakeTransfer(l, dust, from, to, amount).value.ledger) == Supply(l)
  {
    if from != to {
      var first := l.WithFree(to, l.Free(to) + amount);
      SupplyFree(l, to, l.Free(to) + amount);
      SupplyFree(first, from, l.Free(from) - amount);
      var moved := first.WithFree(from, l.Free(from) - amount);
      SupplyReclaim(moved, dust, from);
    }
  }

  lemma ReserveBalanced(l: Ledger, a: AssetId, dust: AccountId, who: AccountId, amount: nat)
    requires Supply(l) <= U128_MAX && ReserveFunds(l, dust, who, amount).Ok?
    ensures Balanced(l, a, ReserveFunds(l, dust, who, amount).value) <==> Harmless(l, ReserveOp(who, amount))
  {
    var left := l.Free(who) - amount;
    SupplyReclaim(l, dust, who);
    SupplyFree(l, who, left);
    var paid := if left < l.existentialDeposit then ReclaimFree(l, dust, who) else l.WithFree(who, left);
    SupplyReserved(paid, who, l.Reserved(who) + amount);
  }

  lemma SlashBalanced(l: Ledger, a: AssetId, who: AccountId, amount: nat)
    ensures Balanced(l, a, Slash(l, a, who, amount))
    ensures SlashRest(l, who, amount) == SatSub(amount, l.Free(who) + l.Reserved(who))
  {
    var freeSlash := Min(l.Free(who), amount);
    var first := l.WithFree(who, l.Free(who) - freeSlash);
    SupplyFree(l, who, l.Free(who) - freeSlash);
    SupplyReserved(first, who, l.Reserved(who) - Min(l.Reserved(who), amount - freeSlash));
    NetOne(Negative(a, amount - SlashRest(l, who, amount)), a);
  }

  lemma SlashReservedBalanced(l: Ledger, a: AssetId, who: AccountId, amount: nat)
    ensures Balanced(l, a, SlashReserved(l, a, who, amount))
  {
    SupplyReserved(l, who, l.Reserved(who) - Min(l.Reserved(who), amount));
    NetOne(Negative(a, amount - SlashReservedRest(l, who, amount)), a);
  }

  lemma UnreserveBalanced(l: Ledger, a: AssetId, who: AccountId, amount: nat)
    ensures Balanced(l, a, Unreserve(l, who, amount)) && Supply(Unreserve(l, who, amount).ledger) == Supply(l)
  {
    var actual := Min(l.Reserved(who), amount);
    SupplyReserved(l, who, l.Reserved(who) - actual);
    SupplyFree(l.WithReserved(who, l.Reserved(who) - actual), who, l.Free(who) + actual);
  }

  lemma RepatriateBalanced(l: Ledger, a: AssetId, who: AccountId, to: AccountId, amount: nat)
    ensures Balanced(l, a, RepatriateReserved(l, who, to, amount))
    ensures Supply(RepatriateReserved(l, who, to, amount).ledger) == Supply(l)
  {
    var actual := Min(l.Reserved(who), amount);
    SupplyFree(l, to, l.Free(to) + actual);
    SupplyReserved(l.WithFree(to, l.Free(to) + actual), who, l.Reserved(who) - actual);
  }

  lemma FreeBalanced(l: Ledger, a: AssetId, who: AccountId, amount: nat)
    ensures Balanced(l, a, MakeFreeBalanceBe(l, a, who, amount))
    ensures Balanced(l, a, DepositCreating(l, a, who, amount))
  {
    SupplyFree(l, who, amount);
    SupplyFree(l, who, l.Free(who) + amount);
    NetOne(MakeFreeBalanceBe(l, a, who, amount).made[0], a);
    NetOne(MakeFreeBalanceBe(l, a, who, l.Free(who) + amount).made[0], a);
    NetOne(ZERO, a);
  }

  lemma WithdrawBalanced(l: Ledger, a: AssetId, dust: AccountId, who: AccountId, amount: nat, r: set<WithdrawReason>)
    requires Supply(l) <= U128_MAX
    ensures Withdraw(l, a, who, amount, r).Ok? ==> Balanced(l, a, Withdraw(l, a, who, amount, r).value)
    ensures CurrencyWithdraw(l, a, dust, who, amount, r).Ok? ==>
      (Balanced(l, a, CurrencyWithdraw(l, a, dust, who, amount, r).value) <==>
       Harmless(l, CurrencyWithdrawOp(who, amount, r)))
  {
    NetOne(ZERO, a);
    NetOne(Negative(a, amount), a);
    SupplyReclaim(l, dust, who);
    if amount <= l.Free(who) {
      SupplyFree(l, who, l.Free(who) - amount);
    }
  }

  /** Every operation keeps the books of its asset, exactly when it is harmless. */
  lemma EffectBalanced(l: Ledger, a: AssetId, dust: AccountId, op: Op)
    requires Supply(l) <= U128_MAX && l.issuance <= U128_MAX && Perform(l, a, dust, op).Ok?
    ensures Balanced(l, a, Perform(l, a, dust, op).value) <==> Harmless(l, op)
  {
    match op
    case MintOp(_, to, x) => SupplyFree(l, to, l.Free(to) + x);
    case BurnOp(_, from, x) => SupplyFree(l, from, l.Free(from) - x);
    case TransferOp(from, to, x) => TransferBalanced(l, a, dust, from, to, x);
    case ReserveOp(who, x) => ReserveBalanced(l, a, dust, who, x);
    case UnreserveOp(who, x) => UnreserveBalanced(l, a, who, x);
    case SlashOp(who, x) => SlashBalanced(l, a, who, x);
    case SlashReservedOp(who, x) => SlashReservedBalanced(l, a, who, x);
    case RepatriateOp(p, b, x) => RepatriateBalanced(l, a, p, b, x);
    case SetFreeOp(who, b) => FreeBalanced(l, a, who, b);
    case DepositOp(who, x) => FreeBalanced(l, a, who, x);
    case WithdrawOp(who, x, r) => WithdrawBalanced(l, a, dust, who, x, r);
    case CurrencyWithdrawOp(who, x, r) => WithdrawBalanced(l, a, dust, who, x, r);
    case IssueOp(x) => NetOne(Issue(l, a, x).made[0], a);
    case CurrencyBurnOp(x) => NetOne(CurrencyBurn(l, a, x).made[0], a);
  }

  /** Ten units on an account, with an existential deposit of five. */
  const TEN: Ledger := Ledger(10, 5, None, None, map[1 := 10], map[], map[])

  /** Reserving eight of ten leaves ten with the dust account and eight in reserve; withdrawing eight leaves
      ten with the dust account and an imbalance of eight; burning three hands out an imbalance only. */
  lemma HarmfulOperations(op: Op)
    requires op == ReserveOp(1, 8) || op == CurrencyWithdrawOp(1, 8, {}) || op == CurrencyBurnOp(3)
    ensures Supply(TEN) == TEN.issuance && Perform(TEN, 0, 2, op).Ok? && !Balanced(TEN, 0, Perform(TEN, 0, 2, op).value)
  {
    SumUpdate(map[], 1, 10);
    assert map[][1 := 10] == map[1 := 10];
    assert TEN.Free(1) == 10 && TEN.LocksOf(1) == [];
    EffectBalanced(TEN, 0, 2, op);
  }

  // ---- Imbalances ----

  /** Splitting and offsetting never change what the imbalances will do to the issuance; merging
      does not exactly when the sum fits a u128. */
  lemma ImbalanceArithmetic(i: Imbalance, j: Imbalance, amount: nat, a: AssetId)
    requires i.asset == j.asset
    ensures Signed(Split(i, amount).0, a) + Signed(Split(i, amount).1, a) == Signed(i, a)
    ensures i.Positive? != j.Positive? ==> Signed(Offset(i, j), a) == Signed(i, a) + Signed(j, a)
    ensures i.Positive? == j.Positive? && a == i.asset && i.amount <= U128_MAX && j.amount <= U128_MAX ==>
      (Signed(Merge(i, j), a) == Signed(i, a) + Signed(j, a) <==> i.amount + j.amount <= U128_MAX)
  {
  }

  // ---- All assets, with imbalances outstanding ----

  const NEW_LEDGER: Ledger := Ledger(0, 1, None, None, map[], map[], map[])

  datatype State = State(assets: map<AssetId, Ledger>, dust: AccountId, outstanding: seq<Imbalance>) {
    function LedgerOf(a: AssetId): Ledger { Get(assets, a, NEW_LEDGER) }
  }

  /** An operation on an asset, or something done with imbalances already handed out. */
  datatype Action =
    | On(asset: AssetId, op: Op)
    | DropAt(k: nat)
    | SplitAt(k: nat, amount: nat)
    | MergeAt(j: nat, k: nat)
    | OffsetAt(j: nat, k: nat)

  function RemoveAt(s: seq<Imbalance>, k: nat): seq<Imbalance>
    requires k < |s|
  {
    s[..k] + s[k + 1..]
  }

  /** Whether the imbalances an action names exist and may be combined as it says. */
  predicate WellFormed(s: State, act: Action) {
    var outs := s.outstanding;
    match act
    case On(_, _) => true
    case DropAt(k) => k < |outs|
    case SplitAt(k, _) => k < |outs|
    case MergeAt(j, k) =>
      j < k < |outs| && outs[j].asset == outs[k].asset && outs[j].Positive? == outs[k].Positive?
    case OffsetAt(j, k) =>
      j < k < |outs| && outs[j].asset == outs[k].asset && outs[j].Positive? != outs[k].Positive?
  }

  function Act(s: State, act: Action): State
    requires WellFormed(s, act)
  {
    var outs := s.outstanding;
    match act
    case On(a, op) =>
      var r := Perform(s.LedgerOf(a), a, s.dust, op);
      if r.Err? then s
      else s.(assets := s.assets[a := r.value.ledger], outstanding := outs + r.value.made)
    case DropAt(k) =>
      s.(assets := s.assets[outs[k].asset := DropInto(s.LedgerOf(outs[k].asset), outs[k])],
         outstanding := RemoveAt(outs, k))
    case SplitAt(k, x) =>
      s.(outstanding := RemoveAt(outs, k) + [Split(outs[k], x).0, Split(outs[k], x).1])
    case MergeAt(j, k) =>
      s.(outstanding := RemoveAt(RemoveAt(outs, k), j) + [Merge(outs[j], outs[k])])
    case OffsetAt(j, k) =>
      s.(outstanding := RemoveAt(RemoveAt(outs, k), j) + [Offset(outs[j], outs[k])])
  }

  /** Balances plus negative imbalances equal issuance plus positive imbalances. */
  ghost predicate Conserved(s: State, a: AssetId) {
    Supply(s.LedgerOf(a)) == s.LedgerOf(a).issuance + Net(s.outstanding, a)
  }

  predicate Saturates(l: Ledger, i: Imbalance) {
    if i.Positive? then l.issuance + i.amount > U128_MAX else i.amount > l.issuance
  }

  /** Nothing overflows a u128, no drop saturates, and the operation is not one of the harmful three. */
  ghost predicate Safe(s: State, act: Action) {
    && WellFormed(s, act)
    && match act
       case On(a, op) =>
         Perform(s.LedgerOf(a), a, s.dust, op).Ok? ==>
           Harmless(s.LedgerOf(a), op) && Supply(Perform(s.LedgerOf(a), a, s.dust, op).value.ledger) <= U128_MAX
       case DropAt(k) => !Saturates(s.LedgerOf(s.outstanding[k].asset), s.outstanding[k])
       case MergeAt(j, k) => s.outstanding[j].amount + s.outstanding[k].amount <= U128_MAX
       case _ => true
  }

  lemma NetRemove(s: seq<Imbalance>, k: nat, a: AssetId)
    requires k < |s|
    ensures Net(RemoveAt(s, k), a) == Net(s, a) - Signed(s[k], a)
  {
    assert s == s[..k] + [s[k]] + s[k + 1..];
    NetConcat(s[..k] + [s[k]], s[k + 1..], a);
    NetConcat(s[..k], [s[k]], a);
    NetConcat(s[..k], s[k + 1..], a);
    NetOne(s[k], a);
  }

  lemma NetCombine(outs: seq<Imbalance>, j: nat, k: nat, c: Imbalance, a: AssetId)
    requires j < k < |outs| && Signed(c, a) == Signed(outs[j], a) + Signed(outs[k], a)
    ensures Net(RemoveAt(RemoveAt(outs, k), j) + [c], a) == Net(outs, a)
  {
    NetRemove(outs, k, a);
    assert RemoveAt(outs, k)[j] == outs[j];
    NetRemove(RemoveAt(outs, k), j, a);
    NetConcat(RemoveAt(RemoveAt(outs, k), j), [c], a);
    NetOne(c, a);
  }

  lemma NetSplit(outs: seq<Imbalance>, k: nat, x: nat, a: AssetId)
    requires k < |outs|
    ensures Net(RemoveAt(outs, k) + [Split(outs[k], x).0, Split(outs[k], x).1], a) == Net(outs, a)
  {
    var (p, q) := Split(outs[k], x);
    NetRemove(outs, k, a);
    NetConcat(RemoveAt(outs, k), [p, q], a);
    assert [p, q] == [p] + [q];
    NetConcat([p], [q], a);
    NetOne(p, a);
    NetOne(q, a);
    ImbalanceArithmetic(outs[k], outs[k], x, a);
  }

  /** Dropping an imbalance conserves its asset exactly when the issuance does not saturate, and
      leaves every other asset alone. */
  lemma DropConserves(s: State, k: nat, a: AssetId)
    requires k < |s.outstanding| && Conserved(s, a) && s.LedgerOf(a).issuance <= U128_MAX
    ensures a == s.outstanding[k].asset ==>
      (Conserved(Act(s, DropAt(k)), a) <==> !Saturates(s.LedgerOf(a), s.outstanding[k]))
    ensures a != s.outstanding[k].asset ==> Conserved(Act(s, DropAt(k)), a)
  {
    NetRemove(s.outstanding, k, a);
  }

  /** The books of `a` are in order. */
  ghost predicate InOrder(s: State, a: AssetId) {
    Conserved(s, a) && Supply(s.LedgerOf(a)) <= U128_MAX && s.LedgerOf(a).issuance <= U128_MAX
  }

  /** One action keeps the books of every asset. */
  lemma ActConserves(s: State, act: Action, a: AssetId)
    requires (forall x :: InOrder(s, x)) && Safe(s, act)
    ensures InOrder(Act(s, act), a)
  {
    var outs := s.outstanding;
    assert InOrder(s, a);
    match act
    case On(x, op) => OnConserves(s, x, op, a);
    case DropAt(k) => DropConserves(s, k, a);
    case SplitAt(k, x) => NetSplit(outs, k, x, a);
    case MergeAt(j, k) =>
      ImbalanceArithmetic(outs[j], outs[k], 0, a);
      NetCombine(outs, j, k, Merge(outs[j], outs[k]), a);
    case OffsetAt(j, k) =>
      ImbalanceArithmetic(outs[j], outs[k], 0, a);
      NetCombine(outs, j, k, Offset(outs[j], outs[k]), a);
  }

  lemma OnConserves(s: State, x: AssetId, op: Op, a: AssetId)
    requires InOrder(s, x) && InOrder(s, a) && Safe(s, On(x, op))
    ensures InOrder(Act(s, On(x, op)), a)
  {
    var l := s.LedgerOf(x);
    var r := Perform(l, x, s.dust, op);
    if r.Ok? {
      NetConcat(s.outstanding, r.value.made, a);
      if a == x {
        EffectBalanced(l, x, s.dust, op);
        IssuanceFits(l, x, s.dust, op);
      } else {
        MadeElsewhere(l, x, s.dust, op, a);
      }
    }
  }

  lemma IssuanceFits(l: Ledger, a: AssetId, dust: AccountId, op: Op)
    requires l.issuance <= U128_MAX && Perform(l, a, dust, op).Ok?
    ensures Perform(l, a, dust, op).value.ledger.issuance <= U128_MAX
  {
  }

  /** The imbalance an operation hands out is of its own asset, or is zero. */
  lemma MadeElsewhere(l: Ledger, x: AssetId, dust: AccountId, op: Op, a: AssetId)
    requires a != x && Perform(l, x, dust, op).Ok?
    ensures Net(Perform(l, x, dust, op).value.made, a) == 0
  {
    var made := Perform(l, x, dust, op).value.made;
    if made != [] {
      assert |made| == 1;
      assert made == [made[0]];
      NetOne(made[0], a);
    }
  }

  ghost predicate SafeRun(s: State, acts: seq<Action>)
    decreases |acts|
  {
    acts == [] || (Safe(s, acts[0]) && SafeRun(Act(s, acts[0]), acts[1..]))
  }

  ghost function RunAll(s: State, acts: seq<Action>): State
    requires SafeRun(s, acts)
    decreases |acts|
  {
    if acts == [] then s else RunAll(Act(s, acts[0]), acts[1..])
  }

  /** For every asset, over every run: all balances plus outstanding negative imbalances equal total
      issuance plus outstanding positive ones. */
  lemma {:induction false} RunConserves(s: State, acts: seq<Action>)
    requires (forall a :: InOrder(s, a)) && SafeRun(s, acts)
    ensures forall a :: InOrder(RunAll(s, acts), a)
    decreases |acts|
  {
    if acts != [] {
      forall a ensures InOrder(Act(s, acts[0]), a) {
        ActConserves(s, acts[0], a);
      }
      RunConserves(Act(s, acts[0]), acts[1..]);
    }
  }

  // ---- Imbalances dropped at once ----

  /** The ledger after `op`, with the caller dropping at once what it got. */
  function SettledLedger(l: Ledger, a: AssetId, dust: AccountId, op: Op): Ledger {
    var r := Perform(l, a, dust, op);
    if r.Err? then l
    else if r.value.made == [] then r.value.ledger
    else DropInto(r.value.ledger, r.value.made[0])
  }

  function Settled(s: State, a: AssetId, op: Op): State {
    s.(assets := s.assets[a := SettledLedger(s.LedgerOf(a), a, s.dust, op)])
  }

  ghost predicate Square(s: State) {
    forall a :: Supply(s.LedgerOf(a)) == s.LedgerOf(a).issuance <= U128_MAX
  }

  /** The new funds of a deposit fit the issuance. */
  predicate Affordable(l: Ledger, op: Op) {
    match op
    case DepositOp(_, x) => l.issuance + x <= U128_MAX
    case SetFreeOp(who, b) => l.issuance + SatSub(b, l.Free(who)) <= U128_MAX
    case _ => true
  }

  /** When every imbalance is dropped straight away, no drop saturates: issuance always equals the
      sum of all balances, for every asset. */
  lemma SettledStaysSquare(s: State, x: AssetId, op: Op)
    requires Square(s) && Harmless(s.LedgerOf(x), op) && Affordable(s.LedgerOf(x), op)
    ensures Square(Settled(s, x, op))
  {
    var (l, t) := (s.LedgerOf(x), Settled(s, x, op));
    assert Supply(l) == l.issuance <= U128_MAX;
    LedgerStaysSquare(l, x, s.dust, op);
    forall a ensures Supply(t.LedgerOf(a)) == t.LedgerOf(a).issuance <= U128_MAX {
      if a != x {
        assert t.LedgerOf(a) == s.LedgerOf(a);
      }
    }
  }

  lemma LedgerStaysSquare(l: Ledger, x: AssetId, dust: AccountId, op: Op)
    requires Supply(l) == l.issuance <= U128_MAX && Harmless(l, op) && Affordable(l, op)
    ensures
      var t := SettledLedger(l, x, dust, op);
      Supply(t) == t.issuance <= U128_MAX
  {
    if Perform(l, x, dust, op).Ok? {
      EffectBalanced(l, x, dust, op);
      IssuanceFits(l, x, dust, op);
      if Perform(l, x, dust, op).value.made != [] {
        MadeOne(l, x, dust, op);
        SettledDrop(l, x, dust, op);
      }
    }
  }

  /** The unchecked additions of the reserve operations cannot overflow a u128. */
  lemma PlainAdditionsFit(l: Ledger, who: AccountId, to: AccountId, amount: nat)
    requires Supply(l) <= U128_MAX
    ensures amount <= l.Free(who) ==> l.Reserved(who) + amount <= U128_MAX
    ensures l.Free(to) + Min(l.Reserved(who), amount) <= U128_MAX
  {
    SumAtLeast(l.free, who);
    SumAtLeast(l.free, to);
    SumAtLeast(l.reserved, who);
  }

  lemma MadeOne(l: Ledger, x: AssetId, dust: AccountId, op: Op)
    requires Perform(l, x, dust, op).Ok? && Perform(l, x, dust, op).value.made != []
    ensures var made := Perform(l, x, dust, op).value.made; Net(made, x) == Signed(made[0], x)
  {
    var made := Perform(l, x, dust, op).value.made;
    assert |made| == 1;
    assert made == [made[0]];
    NetOne(made[0], x);
  }

  lemma SettledDrop(l: Ledger, x: AssetId, dust: AccountId, op: Op)
    requires Supply(l) == l.issuance <= U128_MAX && Harmless(l, op) && Affordable(l, op)
    requires Perform(l, x, dust, op).Ok? && Perform(l, x, dust, op).value.made != []
    ensures
      var e := Perform(l, x, dust, op).value;
      !Saturates(e.ledger, e.made[0]) && (e.made[0].asset == x || e.made[0].amount == 0)
      && e.ledger.issuance <= U128_MAX
  {
    match op
    case SlashOp(who, n) => SumAtLeast(l.free, who); SumAtLeast(l.reserved, who); SlashBalanced(l, x, who, n);
    case SlashReservedOp(who, _) => SumAtLeast(l.reserved, who);
    case SetFreeOp(who, _) => SumAtLeast(l.free, who);
    case WithdrawOp(who, _, _) => SumAtLeast(l.free, who);
    case CurrencyWithdrawOp(who, _, _) => SumAtLeast(l.free, who);
    case _ =>
  }

  ghost predicate SquareRun(s: State, ops: seq<(AssetId, Op)>)
    decreases |ops|
  {
    ops == [] || (
      && Harmless(s.LedgerOf(ops[0].0), ops[0].1) && Affordable(s.LedgerOf(ops[0].0), ops[0].1)
      && SquareRun(Settled(s, ops[0].0, ops[0].1), ops[1..]))
  }

  function SettledRun(s: State, ops: seq<(AssetId, Op)>): State
    decreases |ops|
  {
    if ops == [] then s else SettledRun(Settled(s, ops[0].0, ops[0].1), ops[1..])
  }

  lemma {:induction false} IssuanceIsSumOfBalances(s: State, ops: seq<(AssetId, Op)>)
    requires Square(s) && SquareRun(s, ops)
    ensures Square(SettledRun(s, ops))
    decreases |ops|
  {
    if ops != [] {
      SettledStaysSquare(s, ops[0].0, ops[0].1);
      IssuanceIsSumOfBalances(Settled(s, ops[0].0, ops[0].1), ops[1..]);
    }
  }
}
