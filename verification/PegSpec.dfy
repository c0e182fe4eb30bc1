/** The ERC20 peg: bridged assets, deposits, withdrawals and their delayed claims. */
module PegSpec {
  import opened Prelude
  import Locks = AssetLocks
  import L = AssetLedger
  import opened AssetConservation
  import opened PegQueueSpec

  type Token = nat
  type AssetId = L.AssetId
  type AccountId = L.AccountId

  datatype Claim =
    | Deposit(token: Token, amount: nat, beneficiary: AccountId, txHash: nat)
    | Withdrawal(token: Token, amount: nat, recipient: nat)

  datatype Error =
    | CreateAssetFailed
    | InvalidAmount
    | DepositsPaused
    | WithdrawalsPaused
    | UnsupportedAsset
    | EvmWithdrawalFailed
    | PaymentFailed(reason: L.Error)

  /** `deposited`, `withdrawn`, `elsewhere`, `paidIn` and `settled` are histories: amounts credited and
      taken per asset, what others added to or took from its issuance, the asset each delayed withdrawal
      was paid in, and the asset found when it was processed. */
  datatype Peg = Peg(
    queue: Queue<Claim>,
    ga: State,
    nextAssetId: AssetId,
    staking: AssetId,
    account: AccountId,
    erc20ToAsset: map<Token, AssetId>,
    assetToErc20: map<AssetId, Token>,
    claimDelay: map<AssetId, (nat, nat)>,
    depositsActive: bool,
    withdrawalsActive: bool,
    cennzDepositsActive: bool,
    deposited: map<AssetId, nat>,
    withdrawn: map<AssetId, nat>,
    elsewhere: map<AssetId, int>,
    paidIn: map<ClaimId, AssetId>,
    settled: map<ClaimId, Option<AssetId>>)
  {
    function Deposited(a: AssetId): nat { Get(deposited, a, 0) }

    function Withdrawn(a: AssetId): nat { Get(withdrawn, a, 0) }

    function Elsewhere(a: AssetId): int { Get(elsewhere, a, 0) }
  }

  /** `create_asset` with no initial supply, a minimum balance of 1 and all permissions to `owner`. */
  function CreateAsset(p: Peg, owner: AccountId): Peg {
    var ledger := L.Ledger(0, 1, Some(owner), Some(owner), map[owner := 0], map[], map[]);
    p.(ga := p.ga.(assets := p.ga.assets[p.nextAssetId := ledger]), nextAssetId := p.nextAssetId + 1)
  }

  /** The asset of a token, created on first use. */
  function EnsureAsset(p: Peg, token: Token): Peg {
    if token in p.erc20ToAsset then p
    else CreateAsset(p, p.account).(
      erc20ToAsset := p.erc20ToAsset[token := p.nextAssetId],
      assetToErc20 := p.assetToErc20[p.nextAssetId := token])
  }

  /** A transfer whose result is ignored; zero amounts are not passed on. */
  function TryTransfer(ga: State, a: AssetId, from: AccountId, to: AccountId, amount: nat): State {
    if amount == 0 then ga else Settled(ga, a, TransferOp(from, to, amount))
  }

  /** Credit a deposit in asset `a`: from the peg account for staking deposits, newly issued otherwise. */
  function CreditAsset(p: Peg, a: AssetId, amount: nat, beneficiary: AccountId): Peg {
    if a == p.staking && p.cennzDepositsActive then p.(ga := TryTransfer(p.ga, a, p.account, beneficiary, amount))
    else p.(ga := Settled(p.ga, a, DepositOp(beneficiary, amount)),
            deposited := p.deposited[a := p.Deposited(a) + amount])
  }

  /** `do_deposit`: credit a deposit verified on Ethereum. `canCreate` tells whether creating a new
      asset would succeed. */
  function DoDeposit(p: Peg, token: Token, amount: nat, beneficiary: AccountId, canCreate: bool): Result<Peg, Error> {
    if token !in p.erc20ToAsset && !canCreate then Err(CreateAssetFailed)
    else
      var q := EnsureAsset(p, token);
      Ok(CreditAsset(q, q.erc20ToAsset[token], amount, beneficiary))
  }

  /** `deposit_claim`: large deposits of a mapped token wait; others go straight to the bridge. */
  function DepositClaim(p: Peg, c: Claim): Result<Peg, Error>
    requires c.Deposit?
  {
    if !p.depositsActive then Err(DepositsPaused)
    else if c.amount >= U128_MAX then Err(InvalidAmount)
    else if c.token in p.erc20ToAsset && p.erc20ToAsset[c.token] in p.claimDelay
            && p.claimDelay[p.erc20ToAsset[c.token]].0 <= c.amount then
      Ok(p.(queue := Delay(p.queue, p.claimDelay[p.erc20ToAsset[c.token]].1, c)))
    else Ok(p)
  }

  function PayBy(p: Peg, a: AssetId, amount: nat, op: AssetConservation.Op): Result<Peg, Error> {
    var r := Perform(p.ga.LedgerOf(a), a, p.ga.dust, op);
    if r.Err? then Err(PaymentFailed(r.error))
    else Ok(p.(ga := Settled(p.ga, a, op), withdrawn := p.withdrawn[a := p.Withdrawn(a) + amount]))
  }

  /** `process_withdrawal_payment`: staking assets go to the peg account, others are destroyed. */
  function Pay(p: Peg, who: AccountId, a: AssetId, amount: nat): Result<Peg, Error> {
    if a == p.staking then
      if amount == 0 then Ok(p) else PayBy(p, a, amount, TransferOp(who, p.account, amount))
    else PayBy(p, a, amount, WithdrawOp(who, amount, {Locks.Transfer}))
  }

  /** Delay a withdrawal paid in asset `a`. */
  function DelayPaid(p: Peg, a: AssetId, delay: nat, claim: Claim): Peg {
    if Exhausted(p.queue) then p
    else p.(queue := Delay(p.queue, delay, claim), paidIn := p.paidIn[p.queue.nextId := a])
  }

  /** `do_withdrawal`, from the runtime or the EVM. */
  function DoWithdrawal(p: Peg, who: AccountId, a: AssetId, amount: nat, recipient: nat,
                        fromEvm: bool): Result<Peg, Error> {
    if !p.withdrawalsActive then Err(WithdrawalsPaused)
    else if a !in p.assetToErc20 then Err(UnsupportedAsset)
    else if a in p.claimDelay && p.claimDelay[a].0 <= amount then
      if fromEvm then Err(EvmWithdrawalFailed)
      else
        var paid := Pay(p, who, a, amount);
        if paid.Err? then paid
        else Ok(DelayPaid(paid.value, a, p.claimDelay[a].1, Withdrawal(p.assetToErc20[a], amount, recipient)))
    else Pay(p, who, a, amount)
  }

  /** What processing the first ready claim notes down: a withdrawal looks its asset up again. */
  function SettleNext(q: Queue<Claim>, toAsset: map<Token, AssetId>,
                      settled: map<ClaimId, Option<AssetId>>): map<ClaimId, Option<AssetId>> {
    if q.ready == [] || q.At(q.ready[0]) == [] then settled
    else
      var id := q.At(q.ready[0])[0];
      if id in q.claims && q.claims[id].Withdrawal? then
        var token := q.claims[id].token;
        settled[id := if token in toAsset then Some(toAsset[token]) else None]
      else settled
  }

  /** `process_claim` for the first ready claim. */
  function ProcessNext(p: Peg): Peg {
    p.(queue := Pop(p.queue), settled := SettleNext(p.queue, p.erc20ToAsset, p.settled))
  }

  function ProcessN(p: Peg, n: nat): Peg
    decreases n
  {
    if n == 0 then p else ProcessN(ProcessNext(p), n - 1)
  }

  /** An operation on asset `a` that is none of the peg's. */
  function OutsidePeg(p: Peg, a: AssetId, op: AssetConservation.Op): Peg {
    var ga := Settled(p.ga, a, op);
    p.(ga := ga,
       elsewhere := p.elsewhere[a := p.Elsewhere(a) + ga.LedgerOf(a).issuance - p.ga.LedgerOf(a).issuance])
  }

  // ---- Runs ----

  datatype Op =
    | Credit(token: Token, amount: nat, beneficiary: AccountId, canCreate: bool)
    | SubmitDeposit(token: Token, amount: nat, beneficiary: AccountId, txHash: nat)
    | Withdraw(who: AccountId, asset: AssetId, amount: nat, recipient: nat, fromEvm: bool)
    | SetClaimDelay(asset: AssetId, min: nat, delay: nat)
    | Activate(deposits: bool, withdrawals: bool, cennz: bool)
    | NextBlock
    | Process(n: nat)
    | OtherAsset(owner: AccountId)
    | Trade(asset: AssetId, op: AssetConservation.Op)

  function Apply(p: Peg, op: Op): Peg {
    match op
    case Credit(t, x, b, can) => var r := DoDeposit(p, t, x, b, can); if r.Ok? then r.value else p
    case SubmitDeposit(t, x, b, h) => var r := DepositClaim(p, Deposit(t, x, b, h)); if r.Ok? then r.value else p
    case Withdraw(who, a, x, rec, evm) => var r := DoWithdrawal(p, who, a, x, rec, evm); if r.Ok? then r.value else p
    case SetClaimDelay(a, m, d) => p.(claimDelay := p.claimDelay[a := (m, d)])
    case Activate(d, w, c) => p.(depositsActive := d, withdrawalsActive := w, cennzDepositsActive := c)
    case NextBlock => p.(queue := NewBlock(p.queue))
    case Process(n) => ProcessN(p, n)
    case OtherAsset(owner) => CreateAsset(p, owner)
    case Trade(a, o) => OutsidePeg(p, a, o)
  }

  function Run(p: Peg, ops: seq<Op>): Peg
    decreases |ops|
  {
    if ops == [] then p else Run(Apply(p, ops[0]), ops[1..])
  }
}
