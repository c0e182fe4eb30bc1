/** Which deposits and withdrawals of the peg are accepted, which of them wait, and who is paid. */
module PegAnswers {
  import opened Prelude
  import Locks = AssetLocks
  import L = AssetLedger
  import opened AssetConservation
  import A = AssetStatements
  import opened PegQueueSpec
  import opened PegSpec

  /** An amount of at least the minimum set for the asset waits. */
  predicate Waits(p: Peg, a: AssetId, amount: nat) { a in p.claimDelay && amount >= p.claimDelay[a].0 }

  /** `c` was queued under the next id for the block `delay` blocks ahead, and nothing else changed. Once the ids
      have run out nothing changes at all. */
  ghost predicate Queued(q: Queue<Claim>, q': Queue<Claim>, delay: nat, c: Claim) {
    if q.nextId >= U64_MAX then q' == q
    else
      var (id, b) := (q.nextId, q.now + delay);
      && q' == q.(nextId := id + 1, claims := q'.claims, schedule := q'.schedule, home := q'.home)
      && id in q'.claims && q'.claims[id] == c && (forall i :: i != id ==> (i in q'.claims <==> i in q.claims))
      && (forall i :: i != id && i in q.claims ==> q'.claims[i] == q.claims[i])
      && id in q'.home && q'.home[id] == b
      && (forall d: nat :: q'.At(d) == if d == b then q.At(d) + [id] else q.At(d))
  }

  lemma DelayQueues(q: Queue<Claim>, delay: nat, c: Claim)
    ensures Queued(q, Delay(q, delay, c), delay, c)
  {
  }

  /** A deposit claim is accepted if and only if deposits are active and the amount is below the u128 limit. It
      waits if and only if its token has an asset with a minimum it reaches; otherwise the peg is unchanged. */
  lemma DepositAnswer(p: Peg, c: Claim)
    requires c.Deposit?
    ensures DepositClaim(p, c).Ok? <==> p.depositsActive && c.amount < U128_MAX
    ensures DepositClaim(p, c).Ok? ==>
      var q := DepositClaim(p, c).value;
      && q == p.(queue := q.queue)
      && if c.token in p.erc20ToAsset && Waits(p, p.erc20ToAsset[c.token], c.amount)
         then Queued(p.queue, q.queue, p.claimDelay[p.erc20ToAsset[c.token]].1, c) else q == p
  {
    if c.token in p.erc20ToAsset && Waits(p, p.erc20ToAsset[c.token], c.amount) {
      DelayQueues(p.queue, p.claimDelay[p.erc20ToAsset[c.token]].1, c);
    }
  }

  /** A withdrawal of a bridged asset is accepted if and only if withdrawals are active, the asset has a token, it
      does not have to wait when it comes from the EVM, and its sender has the amount free of locks. It waits if
      and only if it reaches the minimum of the asset, and is then queued for the token of that asset. */
  lemma WithdrawalAnswer(p: Peg, who: AccountId, a: AssetId, amount: nat, recipient: nat, fromEvm: bool)
    requires a != p.staking
    ensures
      var r := DoWithdrawal(p, who, a, amount, recipient, fromEvm);
      && (r.Ok? <==>
            && p.withdrawalsActive && a in p.assetToErc20 && !(Waits(p, a, amount) && fromEvm)
            && (amount == 0 || A.MayLeave(p.ga.LedgerOf(a), who, amount, Locks.Misc)))
      && (r.Ok? ==>
            if Waits(p, a, amount)
            then Queued(p.queue, r.value.queue, p.claimDelay[a].1, Withdrawal(p.assetToErc20[a], amount, recipient))
            else r.value.queue == p.queue)
  {
    var op := WithdrawOp(who, amount, {Locks.Transfer});
    A.DoneIfAllowed(p.ga.LedgerOf(a), a, p.ga.dust, op);
    assert Locks.FromWithdraw({Locks.Transfer}) == Locks.Misc;
    if a in p.assetToErc20 && Waits(p, a, amount) {
      DelayQueues(p.queue, p.claimDelay[a].1, Withdrawal(p.assetToErc20[a], amount, recipient));
    }
  }

  /** A deposit is credited if and only if its token has an asset or one can be created. */
  lemma CreditAnswer(p: Peg, token: Token, amount: nat, beneficiary: AccountId, canCreate: bool)
    ensures DoDeposit(p, token, amount, beneficiary, canCreate).Ok? <==> token in p.erc20ToAsset || canCreate
  {
  }

  /** While staking deposits are active, one is paid to its beneficiary out of the peg's own account, if that has
      the amount; no issuance changes. */
  lemma StakingDepositPaid(p: Peg, amount: nat, beneficiary: AccountId, x: AccountId)
    requires p.cennzDepositsActive && Supply(p.ga.LedgerOf(p.staking)) <= U128_MAX && beneficiary != p.account
    ensures
      var (l, t) := (p.ga.LedgerOf(p.staking), CreditAsset(p, p.staking, amount, beneficiary).ga.LedgerOf(p.staking));
      var paid := A.MayLeave(l, p.account, amount, Locks.Misc) && l.Free(beneficiary) + amount <= U128_MAX;
      && t.issuance == l.issuance && t.Reserved(x) == l.Reserved(x)
      && t.Free(x) == l.Free(x) +
        if paid && 0 < amount then A.Credit(beneficiary, amount, x) + A.Taken(l, p.ga.dust, p.account, amount, x) else 0
  {
    var (l, op) := (p.ga.LedgerOf(p.staking), TransferOp(p.account, beneficiary, amount));
    A.DoneIfAllowed(l, p.staking, p.ga.dust, op);
    A.OperationPosts(l, p.staking, p.ga.dust, op, x);
    if amount > 0 { StakingSettled(p, amount, beneficiary); }
  }

  lemma StakingSettled(p: Peg, amount: nat, beneficiary: AccountId)
    requires p.cennzDepositsActive && 0 < amount
    ensures
      var (l, op) := (p.ga.LedgerOf(p.staking), TransferOp(p.account, beneficiary, amount));
      var t := CreditAsset(p, p.staking, amount, beneficiary).ga.LedgerOf(p.staking);
      t == SettledLedger(l, p.staking, p.ga.dust, op) && t.issuance == l.issuance
  {
  }
}
