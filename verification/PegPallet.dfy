/** The ERC20 peg over an asset pallet and a claim scheduler: its handlers call theirs, and follow the
    specification. */
module PegPallet {
  import opened Prelude
  import Locks = AssetLocks
  import L = AssetLedger
  import opened AssetConservation
  import A = AssetPallet
  import S = PegQueuePallet
  import Q = PegQueueSafety
  import opened PegQueueSpec
  import opened PegSpec

  // ---- Dropping imbalances at once ----

  lemma SettledTransfer(l: L.Ledger, a: AssetId, dust: AccountId, from: AccountId, to: AccountId, n: nat)
    ensures
      var r := L.MakeTransfer(l, dust, from, to, n);
      SettledLedger(l, a, dust, TransferOp(from, to, n)) == if r.Ok? then r.value.ledger else l
  {
  }

  lemma SettledDeposit(l: L.Ledger, a: AssetId, dust: AccountId, who: AccountId, n: nat)
    requires l.issuance <= U128_MAX
    ensures
      var e := L.MakeFreeBalanceBe(l, a, who, l.Free(who) + n);
      SettledLedger(l, a, dust, DepositOp(who, n)) == if n == 0 then l else L.DropInto(e.ledger, e.made[0])
    ensures SettledLedger(l, a, dust, DepositOp(who, n)).issuance <= U128_MAX
  {
    if n == 0 {
    } else {
    }
  }

  lemma SettledWithdraw(l: L.Ledger, a: AssetId, dust: AccountId, who: AccountId, n: nat)
    requires l.issuance <= U128_MAX
    ensures
      var r := L.Withdraw(l, a, who, n, {Locks.Transfer});
      SettledLedger(l, a, dust, WithdrawOp(who, n, {Locks.Transfer})) ==
        if r.Err? || n == 0 then l else L.DropInto(r.value.ledger, r.value.made[0])
  {
  }

  lemma LedgerUpdated(ga: State, a: AssetId, l: L.Ledger, b: AssetId)
    ensures ga.(assets := ga.assets[a := l]).LedgerOf(b) == if b == a then l else ga.LedgerOf(b)
  {
  }

  /** Changing the ledger of an id in use leaves the unused ones alone. */
  lemma StillUnused(ga: State, ga': State, a: AssetId, next: AssetId)
    requires a < next && (forall b: nat :: next <= b ==> ga.LedgerOf(b) == NEW_LEDGER)
    requires ga' == ga || ga' == ga.(assets := ga.assets[a := ga'.LedgerOf(a)])
    ensures forall b: nat :: next <= b ==> ga'.LedgerOf(b) == NEW_LEDGER
  {
    forall b: nat | next <= b ensures ga'.LedgerOf(b) == NEW_LEDGER { LedgerUpdated(ga, a, ga'.LedgerOf(a), b); }
  }

  /** What paying leaves behind, in terms of the asset pallet's own operations. */
  lemma StakingPayment(p: Peg, who: AccountId, amount: nat)
    ensures
      var (r, a) := (Pay(p, who, p.staking, amount), p.staking);
      var t := L.MakeTransfer(p.ga.LedgerOf(a), p.ga.dust, who, p.account, amount);
      var ga := TryTransfer(p.ga, a, who, p.account, amount);
      && (r.Ok? <==> amount == 0 || t.Ok?)
      && (r.Ok? ==> r.value == p.(ga := ga, withdrawn := r.value.withdrawn))
      && (r.Err? ==> r == Err(PaymentFailed(t.error)) && ga == p.ga.(assets := p.ga.assets[a := p.ga.LedgerOf(a)]))
  {
    if amount == 0 {
    } else {
    }
  }

  lemma BridgedPayment(p: Peg, who: AccountId, a: AssetId, amount: nat)
    requires a != p.staking
    ensures
      var r := Pay(p, who, a, amount);
      var w := L.Withdraw(p.ga.LedgerOf(a), a, who, amount, {Locks.Transfer});
      var ga := Settled(p.ga, a, WithdrawOp(who, amount, {Locks.Transfer}));
      && (r.Ok? <==> w.Ok?)
      && (r.Ok? ==> r.value == p.(ga := ga, withdrawn := r.value.withdrawn))
      && (r.Err? ==> r == Err(PaymentFailed(w.error)) && ga == p.ga.(assets := p.ga.assets[a := p.ga.LedgerOf(a)]))
  {
  }

  lemma {:induction false} ProcessFrame(p: Peg, n: nat)
    ensures ProcessN(p, n) == p.(queue := PopN(p.queue, n), settled := ProcessN(p, n).settled)
    decreases n
  {
    if n > 0 { ProcessFrame(ProcessNext(p), n - 1); }
  }

  /** Only the ledger of `a` and the history of withdrawals differ. */
  ghost predicate Paid(p: Peg, q: Peg, a: AssetId) {
    && q == p.(ga := q.ga, withdrawn := q.withdrawn)
    && (q.ga == p.ga || q.ga == p.ga.(assets := p.ga.assets[a := q.ga.LedgerOf(a)]))
  }

  class PegBook {
    const ledger: A.Pallet
    const scheduler: S.Scheduler<Claim>
    const staking: AssetId
    const account: AccountId
    var nextAssetId: AssetId
    var erc20ToAsset: map<Token, AssetId>
    var assetToErc20: map<AssetId, Token>
    var claimDelay: map<AssetId, (nat, nat)>
    var depositsActive: bool
    var withdrawalsActive: bool
    var cennzDepositsActive: bool
    /** The peg as the specification sees it. */
    ghost var peg: Peg

    /** The pallet holds these ledgers. */
    ghost predicate Holds(ga: State)
      reads this, ledger
    {
      && ledger.dust == ga.dust
      && forall a: nat :: ledger.LedgerAt(a) == ga.LedgerOf(a) && ga.LedgerOf(a).issuance <= U128_MAX
    }

    /** After a change to one ledger. */
    lemma HoldsUpdated(ga: State, a: AssetId, l: L.Ledger)
      requires ledger.dust == ga.dust && ledger.LedgerAt(a) == l && l.issuance <= U128_MAX
      requires forall b: nat :: b != a ==> ledger.LedgerAt(b) == ga.LedgerOf(b) && ga.LedgerOf(b).issuance <= U128_MAX
      ensures Holds(ga.(assets := ga.assets[a := l]))
    {
      forall b: nat ensures ledger.LedgerAt(b) == ga.(assets := ga.assets[a := l]).LedgerOf(b) {
        LedgerUpdated(ga, a, l, b);
      }
    }

    /** Storing a ledger as it is changes nothing. */
    lemma HoldsSame(ga: State, a: AssetId)
      requires Holds(ga.(assets := ga.assets[a := ga.LedgerOf(a)]))
      ensures Holds(ga)
    {
      forall b: nat ensures ledger.LedgerAt(b) == ga.LedgerOf(b) && ga.LedgerOf(b).issuance <= U128_MAX {
        LedgerUpdated(ga, a, ga.LedgerOf(a), b);
        assert ledger.LedgerAt(b) == ga.(assets := ga.assets[a := ga.LedgerOf(a)]).LedgerOf(b);
      }
    }

    /** Ids not handed out yet have no ledger, and mapped assets were handed out. */
    ghost predicate Unused()
      reads this
    {
      && (forall a: nat :: nextAssetId <= a ==> peg.ga.LedgerOf(a) == NEW_LEDGER)
      && (forall t :: t in erc20ToAsset ==> erc20ToAsset[t] < nextAssetId)
      && (forall a :: a in assetToErc20 ==> a < nextAssetId)
    }

    ghost predicate Valid()
      reads this, ledger, scheduler
    {
      ValidBut(peg.queue)
    }

    /** Everything agrees, with `queue` as what the scheduler holds. */
    ghost predicate ValidBut(queue: Queue<Claim>)
      reads this, ledger, scheduler
    {
      && Holds(peg.ga) && Unused() && scheduler.View() == queue
      && peg.staking == staking && peg.account == account && peg.nextAssetId == nextAssetId
      && peg.erc20ToAsset == erc20ToAsset && peg.assetToErc20 == assetToErc20 && peg.claimDelay == claimDelay
      && peg.depositsActive == depositsActive && peg.withdrawalsActive == withdrawalsActive
      && peg.cennzDepositsActive == cennzDepositsActive
    }

    /** Genesis: the bridged staking tokens lead to the staking asset. */
    constructor (now: Block, dust: AccountId, next: AssetId, stakingAsset: AssetId, pegAccount: AccountId,
                 tokens: set<Token>)
      requires stakingAsset < next
      ensures Valid() && fresh(ledger) && fresh(scheduler)
      ensures peg == Peg(Q.Fresh(now), State(map[], dust, []), next, stakingAsset, pegAccount,
                         map t | t in tokens :: stakingAsset, map[], map[], false, false, false,
                         map[], map[], map[], map[], map[])
    {
      ledger := new A.Pallet(map[], dust);
      scheduler := new S.Scheduler(now);
      staking, account, nextAssetId := stakingAsset, pegAccount, next;
      erc20ToAsset := map t | t in tokens :: stakingAsset;
      assetToErc20, claimDelay, depositsActive, withdrawalsActive, cennzDepositsActive :=
          map[], map[], false, false, false;
      peg := Peg(Q.Fresh(now), State(map[], dust, []), next, stakingAsset, pegAccount,
                 map t | t in tokens :: stakingAsset, map[], map[], false, false, false,
                 map[], map[], map[], map[], map[]);
    }

    /** The asset of `token`, created and mapped both ways on first use. */
    method AssetOf(token: Token) returns (a: AssetId)
      requires Valid()
      modifies this, ledger
      ensures Valid() && peg == EnsureAsset(old(peg), token)
      ensures token in erc20ToAsset && a == erc20ToAsset[token]
    {
      if token !in erc20ToAsset {
        a := nextAssetId;
        ledger.CreateAsset(a, A.Meta(1, Some(account), Some(account)), account);
        nextAssetId := a + 1;
        erc20ToAsset := erc20ToAsset[token := a];
        assetToErc20 := assetToErc20[a := token];
        HoldsUpdated(peg.ga, a, ledger.LedgerAt(a));
        peg := EnsureAsset(peg, token);
      } else {
        a := erc20ToAsset[token];
      }
    }

    /** `deposit_creating`, whose imbalance is dropped at once. */
    method Issue(a: AssetId, who: AccountId, amount: nat)
      requires Valid() && a < nextAssetId
      modifies ledger
      ensures Holds(Settled(peg.ga, a, DepositOp(who, amount)))
    {
      ghost var l := SettledLedger(ledger.LedgerAt(a), a, ledger.dust, DepositOp(who, amount));
      SettledDeposit(ledger.LedgerAt(a), a, ledger.dust, who, amount);
      if amount > 0 {
        var made := ledger.SetFreeTo(a, who, ledger.LedgerAt(a).Free(who) + amount);
        ledger.SquareUp(made);
      }
      assert ledger.LedgerAt(a) == l;
      HoldsUpdated(peg.ga, a, l);
    }

    /** `MultiCurrency::transfer`, which passes over a zero amount. */
    method Send(a: AssetId, from: AccountId, to: AccountId, amount: nat) returns (r: Result<(), L.Error>)
      requires Valid()
      modifies ledger
      ensures Holds(TryTransfer(peg.ga, a, from, to, amount))
      ensures
        var spec := L.MakeTransfer(peg.ga.LedgerOf(a), peg.ga.dust, from, to, amount);
        if amount == 0 || spec.Ok? then r.Ok? else r == Err(spec.error)
    {
      r := Ok(());
      SettledTransfer(ledger.LedgerAt(a), a, ledger.dust, from, to, amount);
      if amount > 0 { r := ledger.Move(a, from, to, amount); }
      HoldsUpdated(peg.ga, a, ledger.LedgerAt(a));
    }

    /** `MultiCurrency::withdraw`, whose imbalance is dropped at once. */
    method Destroy(a: AssetId, who: AccountId, amount: nat) returns (r: Result<(), L.Error>)
      requires Valid()
      modifies ledger
      ensures Holds(Settled(peg.ga, a, WithdrawOp(who, amount, {Locks.Transfer})))
      ensures
        var spec := L.Withdraw(peg.ga.LedgerOf(a), a, who, amount, {Locks.Transfer});
        if spec.Ok? then r.Ok? else r == Err(spec.error)
    {
      SettledWithdraw(ledger.LedgerAt(a), a, ledger.dust, who, amount);
      var taken := ledger.TakeOut(a, who, amount, {Locks.Transfer});
      if taken.Ok? {
        ledger.SquareUp(taken.value);
        r := Ok(());
      } else {
        r := Err(taken.error);
      }
      HoldsUpdated(peg.ga, a, ledger.LedgerAt(a));
    }

    /** Credit a deposit in asset `a`. A failed transfer from the peg account is ignored. */
    method CreditDeposit(a: AssetId, amount: nat, beneficiary: AccountId)
      requires Valid() && a < nextAssetId
      modifies this`peg, ledger
      ensures Valid() && peg == CreditAsset(old(peg), a, amount, beneficiary)
    {
      if a == staking && cennzDepositsActive {
        var _ := Send(a, account, beneficiary, amount);
      } else {
        Issue(a, beneficiary, amount);
      }
      StillUnused(peg.ga, CreditAsset(peg, a, amount, beneficiary).ga, a, nextAssetId);
      peg := CreditAsset(peg, a, amount, beneficiary);
    }

    /** `do_deposit` */
    method HandleDeposit(token: Token, amount: nat, beneficiary: AccountId, canCreate: bool)
        returns (r: Result<(), Error>)
      requires Valid()
      modifies this, ledger
      ensures Valid()
      ensures
        var spec := DoDeposit(old(peg), token, amount, beneficiary, canCreate);
        if spec.Ok? then r == Ok(()) && peg == spec.value else r == Err(spec.error) && peg == old(peg)
    {
      if token !in erc20ToAsset && !canCreate {
        r := Err(CreateAssetFailed);
      } else {
        var a := AssetOf(token);
        CreditDeposit(a, amount, beneficiary);
        r := Ok(());
      }
    }

    /** `process_withdrawal_payment` */
    method TakePayment(who: AccountId, a: AssetId, amount: nat) returns (r: Result<(), Error>)
      requires Valid() && a < nextAssetId
      modifies this`peg, ledger
      ensures Valid()
      ensures
        var spec := Pay(old(peg), who, a, amount);
        if spec.Ok? then r == Ok(()) && peg == spec.value else r == Err(spec.error) && peg == old(peg)
    {
      ghost var spec := Pay(peg, who, a, amount);
      var done: Result<(), L.Error>;
      if a == staking {
        done := SendToPeg(who, amount);
      } else {
        done := DestroyBridged(who, a, amount);
      }
      r := if done.Ok? then Ok(()) else Err(PaymentFailed(done.error));
      if done.Ok? {
        StillUnused(peg.ga, spec.value.ga, a, nextAssetId);
        peg := spec.value;
      }
    }

    method SendToPeg(who: AccountId, amount: nat) returns (done: Result<(), L.Error>)
      requires Valid()
      modifies ledger
      ensures
        var spec := Pay(peg, who, staking, amount);
        && (done.Ok? ==> spec.Ok? && Holds(spec.value.ga) && Paid(peg, spec.value, staking))
        && (done.Err? ==> spec == Err(PaymentFailed(done.error)) && Holds(peg.ga))
    {
      StakingPayment(peg, who, amount);
      done := Send(staking, who, account, amount);
      if done.Err? { HoldsSame(peg.ga, staking); }
    }

    method DestroyBridged(who: AccountId, a: AssetId, amount: nat) returns (done: Result<(), L.Error>)
      requires Valid() && a != staking
      modifies ledger
      ensures
        var spec := Pay(peg, who, a, amount);
        && (done.Ok? ==> spec.Ok? && Holds(spec.value.ga) && Paid(peg, spec.value, a))
        && (done.Err? ==> spec == Err(PaymentFailed(done.error)) && Holds(peg.ga))
    {
      BridgedPayment(peg, who, a, amount);
      done := Destroy(a, who, amount);
      if done.Err? { HoldsSame(peg.ga, a); }
    }

    /** `do_withdrawal` */
    method Withdraw(who: AccountId, a: AssetId, amount: nat, recipient: nat, fromEvm: bool)
        returns (r: Result<(), Error>)
      requires Valid()
      modifies this`peg, ledger, scheduler
      ensures Valid()
      ensures
        var spec := DoWithdrawal(old(peg), who, a, amount, recipient, fromEvm);
        if spec.Ok? then r == Ok(()) && peg == spec.value else r == Err(spec.error) && peg == old(peg)
    {
      if !withdrawalsActive {
        r := Err(WithdrawalsPaused);
      } else if a !in assetToErc20 {
        r := Err(UnsupportedAsset);
      } else if a in claimDelay && claimDelay[a].0 <= amount {
        if fromEvm {
          r := Err(EvmWithdrawalFailed);
        } else {
          r := TakePayment(who, a, amount);
          if r.Ok? {
            scheduler.DelayClaim(claimDelay[a].1, Withdrawal(assetToErc20[a], amount, recipient));
            peg := DelayPaid(peg, a, claimDelay[a].1, Withdrawal(assetToErc20[a], amount, recipient));
          }
        }
      } else {
        r := TakePayment(who, a, amount);
      }
    }

    /** `deposit_claim` */
    method SubmitDeposit(token: Token, amount: nat, beneficiary: AccountId, txHash: nat) returns (r: Result<(), Error>)
      requires Valid()
      modifies this`peg, scheduler
      ensures Valid()
      ensures
        var spec := DepositClaim(old(peg), Deposit(token, amount, beneficiary, txHash));
        if spec.Ok? then r == Ok(()) && peg == spec.value else r == Err(spec.error) && peg == old(peg)
    {
      r := Ok(());
      if !depositsActive {
        r := Err(DepositsPaused);
      } else if amount >= U128_MAX {
        r := Err(InvalidAmount);
      } else if token in erc20ToAsset && erc20ToAsset[token] in claimDelay
          && claimDelay[erc20ToAsset[token]].0 <= amount {
        scheduler.DelayClaim(claimDelay[erc20ToAsset[token]].1, Deposit(token, amount, beneficiary, txHash));
        peg := DepositClaim(peg, Deposit(token, amount, beneficiary, txHash)).value;
      }
    }

    /** `on_idle`: the scheduler's loop processes as many claims as the weight pays for. */
    method OnIdle(remaining: nat, readCost: nat, weightEach: nat) returns (used: nat)
      requires Valid() && 0 < weightEach && Q.Inv(peg.queue)
      modifies this`peg, scheduler
      ensures Valid() && used <= remaining
      ensures peg == if remaining <= readCost || old(peg).queue.ready == [] then old(peg)
                     else ProcessN(old(peg), MaxClaims(remaining, readCost, weightEach))
    {
      used := scheduler.OnIdle(remaining, readCost, weightEach);
      if readCost < remaining && peg.queue.ready != [] { Advance(MaxClaims(remaining, readCost, weightEach)); }
    }

    /** Let the specification follow a scheduler that has processed `n` claims. */
    ghost method Advance(n: nat)
      requires ValidBut(PopN(peg.queue, n))
      modifies this`peg
      ensures Valid() && peg == ProcessN(old(peg), n)
    {
      ProcessFrame(peg, n);
      peg := ProcessN(peg, n);
    }
  }
}
