/** Bridged assets are backed: issuance is deposits minus withdrawals, and the token maps agree. */
module PegSafety {
  import opened Prelude
  import opened MapSum
  import Locks = AssetLocks
  import L = AssetLedger
  import opened AssetConservation
  import opened PegQueueSpec
  import Q = PegQueueSafety
  import opened PegSpec

  /** Every asset the peg created is inverted by the token map, and every mapped token leads to such
      an asset or to the staking asset of genesis. */
  ghost predicate MapsAgree(staking: AssetId, next: AssetId, toAsset: map<Token, AssetId>,
                            toErc20: map<AssetId, Token>) {
    && staking < next
    && (forall a :: a in toErc20 ==> a < next && a != staking && toErc20[a] in toAsset && toAsset[toErc20[a]] == a)
    && (forall t :: t in toAsset ==> toAsset[t] == staking || (toAsset[t] in toErc20 && toErc20[toAsset[t]] == t))
  }

  /** What the histories say an asset's issuance is: deposits, less withdrawals, plus what others did. */
  datatype Books = Books(deposited: map<AssetId, nat>, withdrawn: map<AssetId, nat>, elsewhere: map<AssetId, int>) {
    function Owed(a: AssetId): int { Get(deposited, a, 0) - Get(withdrawn, a, 0) + Get(elsewhere, a, 0) }
  }

  function BooksOf(p: Peg): Books { Books(p.deposited, p.withdrawn, p.elsewhere) }

  /** Issuance squares with the balances of the asset's accounts. */
  ghost predicate SquareLedger(l: L.Ledger) { Supply(l) == l.issuance <= U128_MAX }

  /** The issuance of each asset the peg created squares with balances and with the books. Ids not yet
      handed out are untouched. */
  ghost predicate Backed(ga: State, next: AssetId, toErc20: map<AssetId, Token>, books: Books) {
    && (forall a: nat :: next <= a ==> ga.LedgerOf(a) == NEW_LEDGER && books.Owed(a) == 0)
    && (forall a :: a in toErc20 ==> SquareLedger(ga.LedgerOf(a)) && ga.LedgerOf(a).issuance == books.Owed(a))
  }

  /** A waiting withdrawal still maps to the asset it was paid in, and so did every processed one. */
  ghost predicate Redeemable(claims: map<ClaimId, Claim>, nextId: ClaimId, paidIn: map<ClaimId, AssetId>,
                             toAsset: map<Token, AssetId>, settled: map<ClaimId, Option<AssetId>>) {
    && (forall id :: id in claims && claims[id].Withdrawal? ==>
          id in paidIn && claims[id].token in toAsset && toAsset[claims[id].token] == paidIn[id])
    && (forall id :: id in paidIn || id in claims ==> id < nextId)
    && (forall id :: id in settled ==> id in paidIn && settled[id] == Some(paidIn[id]))
  }

  ghost predicate Inv(p: Peg) {
    && MapsAgree(p.staking, p.nextAssetId, p.erc20ToAsset, p.assetToErc20)
    && Backed(p.ga, p.nextAssetId, p.assetToErc20, BooksOf(p))
    && Redeemable(p.queue.claims, p.queue.nextId, p.paidIn, p.erc20ToAsset, p.settled)
  }

  /** Operations that move an asset between accounts without minting or destroying any. */
  predicate Circulates(l: L.Ledger, op: AssetConservation.Op) {
    (op.TransferOp? || op.ReserveOp? || op.UnreserveOp? || op.RepatriateOp?) && Harmless(l, op)
  }

  /** The issuance of the asset a deposit of `token` will be credited in. */
  function IssuanceFor(p: Peg, token: Token): nat {
    if token in p.erc20ToAsset then p.ga.LedgerOf(p.erc20ToAsset[token]).issuance else 0
  }

  predicate PaidInStaking(p: Peg, token: Token) { token in p.erc20ToAsset && p.erc20ToAsset[token] == p.staking }

  /** Deposits of bridged tokens fit the issuance, and nobody uses on a bridged asset the operations that
      break its books. Other assets may see any operation, once they exist. */
  predicate Legal(p: Peg, op: PegSpec.Op) {
    match op
    case Credit(t, x, b, _) => PaidInStaking(p, t) || IssuanceFor(p, t) + x <= U128_MAX
    case Trade(a, o) =>
      && a < p.nextAssetId
      && (a in p.assetToErc20 ==> Harmless(p.ga.LedgerOf(a), o) && Affordable(p.ga.LedgerOf(a), o))
    case _ => true
  }

  // ---- Ledger effects ----

  lemma DepositIssues(s: State, a: AssetId, who: AccountId, amount: nat)
    requires SquareLedger(s.LedgerOf(a)) && s.LedgerOf(a).issuance + amount <= U128_MAX
    ensures
      var t := Settled(s, a, DepositOp(who, amount)).LedgerOf(a);
      SquareLedger(t) && t.issuance == s.LedgerOf(a).issuance + amount
  {
    LedgerStaysSquare(s.LedgerOf(a), a, s.dust, DepositOp(who, amount));
  }

  lemma WithdrawDestroys(s: State, a: AssetId, who: AccountId, amount: nat)
    requires SquareLedger(s.LedgerOf(a))
    requires Perform(s.LedgerOf(a), a, s.dust, WithdrawOp(who, amount, {Locks.Transfer})).Ok?
    ensures
      var t := Settled(s, a, WithdrawOp(who, amount, {Locks.Transfer})).LedgerOf(a);
      SquareLedger(t) && t.issuance == s.LedgerOf(a).issuance - amount
  {
    LedgerStaysSquare(s.LedgerOf(a), a, s.dust, WithdrawOp(who, amount, {Locks.Transfer}));
    SumAtLeast(s.LedgerOf(a).free, who);
  }

  /** Moving an asset between accounts leaves its issuance alone. */
  lemma CirculationKeeps(s: State, a: AssetId, op: AssetConservation.Op)
    requires Circulates(s.LedgerOf(a), op)
    ensures Settled(s, a, op).LedgerOf(a).issuance == s.LedgerOf(a).issuance
  {
  }

  // ---- Operations ----

  lemma NewLedgerSquare(owner: AccountId)
    ensures Supply(L.Ledger(0, 1, Some(owner), Some(owner), map[owner := 0], map[], map[])) == 0
  {
    SumZero(map[owner := 0]);
    SumZero<AccountId>(map[]);
  }

  /** Books after the ledger of one asset `a` has changed, together with its deposits and withdrawals. */
  lemma BackedMoves(ga: State, ga': State, next: AssetId, next': AssetId, toErc20: map<AssetId, Token>,
                    toErc20': map<AssetId, Token>, books: Books, books': Books, a: AssetId)
    requires Backed(ga, next, toErc20, books) && a < next' && next <= next'
    requires forall b: nat :: b != a ==> ga'.LedgerOf(b) == ga.LedgerOf(b) && books'.Owed(b) == books.Owed(b)
    requires forall b :: b in toErc20' && b != a ==> b in toErc20
    requires a in toErc20' ==> SquareLedger(ga'.LedgerOf(a)) && ga'.LedgerOf(a).issuance == books'.Owed(a)
    ensures Backed(ga', next', toErc20', books')
  {
  }

  lemma CreateKeeps(p: Peg, owner: AccountId)
    requires Inv(p)
    ensures Inv(CreateAsset(p, owner))
  {
    var q := CreateAsset(p, owner);
    assert p.nextAssetId !in p.assetToErc20;
    BackedMoves(p.ga, q.ga, p.nextAssetId, q.nextAssetId, p.assetToErc20, q.assetToErc20,
                BooksOf(p), BooksOf(q), p.nextAssetId);
  }

  lemma MapsNew(staking: AssetId, next: AssetId, toAsset: map<Token, AssetId>, toErc20: map<AssetId, Token>,
                token: Token)
    requires MapsAgree(staking, next, toAsset, toErc20) && token !in toAsset
    ensures MapsAgree(staking, next + 1, toAsset[token := next], toErc20[next := token])
  {
  }

  lemma EnsureBacked(p: Peg, token: Token)
    requires Inv(p) && token !in p.erc20ToAsset
    ensures var q := EnsureAsset(p, token); Backed(q.ga, q.nextAssetId, q.assetToErc20, BooksOf(q))
  {
    var (q, a) := (EnsureAsset(p, token), p.nextAssetId);
    NewLedgerSquare(p.account);
    assert BooksOf(p).Owed(a) == 0;
    BackedMoves(p.ga, q.ga, a, q.nextAssetId, p.assetToErc20, q.assetToErc20,
                BooksOf(p), BooksOf(q), a);
  }

  lemma EnsureNewKeeps(p: Peg, token: Token)
    requires Inv(p) && token !in p.erc20ToAsset
    ensures Inv(EnsureAsset(p, token))
  {
    MapsNew(p.staking, p.nextAssetId, p.erc20ToAsset, p.assetToErc20, token);
    EnsureBacked(p, token);
  }

  lemma EnsureKeeps(p: Peg, token: Token)
    requires Inv(p)
    ensures Inv(EnsureAsset(p, token)) && token in EnsureAsset(p, token).erc20ToAsset
    ensures EnsureAsset(p, token).ga.LedgerOf(EnsureAsset(p, token).erc20ToAsset[token]).issuance ==
      IssuanceFor(p, token)
  {
    if token !in p.erc20ToAsset { EnsureNewKeeps(p, token); }
  }

  lemma IssueKeeps(p: Peg, a: AssetId, amount: nat, beneficiary: AccountId)
    requires Inv(p) && a < p.nextAssetId && (a == p.staking || p.ga.LedgerOf(a).issuance + amount <= U128_MAX)
    requires !(a == p.staking && p.cennzDepositsActive)
    ensures Inv(CreditAsset(p, a, amount, beneficiary))
  {
    var q := CreditAsset(p, a, amount, beneficiary);
    if a in p.assetToErc20 { DepositIssues(p.ga, a, beneficiary, amount); }
    BackedMoves(p.ga, q.ga, p.nextAssetId, p.nextAssetId, p.assetToErc20, p.assetToErc20,
                BooksOf(p), BooksOf(q), a);
  }

  lemma PayOutKeeps(p: Peg, amount: nat, beneficiary: AccountId)
    requires Inv(p) && p.cennzDepositsActive
    ensures Inv(CreditAsset(p, p.staking, amount, beneficiary))
  {
    if amount > 0 {
      var ga := Settled(p.ga, p.staking, TransferOp(p.account, beneficiary, amount));
      BackedMoves(p.ga, ga, p.nextAssetId, p.nextAssetId, p.assetToErc20, p.assetToErc20,
                  BooksOf(p), BooksOf(p), p.staking);
    }
  }

  lemma CreditAssetKeeps(p: Peg, a: AssetId, amount: nat, beneficiary: AccountId)
    requires Inv(p) && a < p.nextAssetId && (a == p.staking || p.ga.LedgerOf(a).issuance + amount <= U128_MAX)
    ensures Inv(CreditAsset(p, a, amount, beneficiary))
  {
    if a == p.staking && p.cennzDepositsActive {
      PayOutKeeps(p, amount, beneficiary);
    } else {
      IssueKeeps(p, a, amount, beneficiary);
    }
  }

  lemma CreditKeeps(p: Peg, token: Token, amount: nat, beneficiary: AccountId, canCreate: bool)
    requires Inv(p) && (PaidInStaking(p, token) || IssuanceFor(p, token) + amount <= U128_MAX)
    requires DoDeposit(p, token, amount, beneficiary, canCreate).Ok?
    ensures Inv(DoDeposit(p, token, amount, beneficiary, canCreate).value)
  {
    EnsureKeeps(p, token);
    var q := EnsureAsset(p, token);
    CreditAssetKeeps(q, q.erc20ToAsset[token], amount, beneficiary);
  }

  lemma BridgedPay(p: Peg, who: AccountId, a: AssetId, amount: nat)
    requires a != p.staking && Pay(p, who, a, amount).Ok?
    ensures
      var op := WithdrawOp(who, amount, {Locks.Transfer});
      && Perform(p.ga.LedgerOf(a), a, p.ga.dust, op).Ok?
      && Pay(p, who, a, amount).value ==
        p.(ga := Settled(p.ga, a, op), withdrawn := p.withdrawn[a := p.Withdrawn(a) + amount])
  {
  }

  lemma SettledElsewhere(s: State, a: AssetId, op: AssetConservation.Op)
    ensures forall b: nat :: b != a ==> Settled(s, a, op).LedgerOf(b) == s.LedgerOf(b)
  {
  }

  /** The peg after a payment of `amount` in asset `a` that left the ledgers `ga`. */
  lemma PaidKeeps(p: Peg, ga: State, a: AssetId, amount: nat)
    requires Inv(p) && a in p.assetToErc20 && SquareLedger(ga.LedgerOf(a))
    requires forall b: nat :: b != a ==> ga.LedgerOf(b) == p.ga.LedgerOf(b)
    requires ga.LedgerOf(a).issuance == p.ga.LedgerOf(a).issuance - amount
    ensures Inv(p.(ga := ga, withdrawn := p.withdrawn[a := p.Withdrawn(a) + amount]))
  {
    var q := p.(ga := ga, withdrawn := p.withdrawn[a := p.Withdrawn(a) + amount]);
    BackedMoves(p.ga, ga, p.nextAssetId, p.nextAssetId, p.assetToErc20, p.assetToErc20, BooksOf(p), BooksOf(q), a);
  }

  lemma PayKeeps(p: Peg, who: AccountId, a: AssetId, amount: nat)
    requires Inv(p) && a in p.assetToErc20 && Pay(p, who, a, amount).Ok?
    ensures Inv(Pay(p, who, a, amount).value)
  {
    BridgedPay(p, who, a, amount);
    WithdrawDestroys(p.ga, a, who, amount);
    SettledElsewhere(p.ga, a, WithdrawOp(who, amount, {Locks.Transfer}));
    PaidKeeps(p, Settled(p.ga, a, WithdrawOp(who, amount, {Locks.Transfer})), a, amount);
  }

  lemma WithdrawKeeps(p: Peg, who: AccountId, a: AssetId, amount: nat, recipient: nat, fromEvm: bool)
    requires Inv(p) && DoWithdrawal(p, who, a, amount, recipient, fromEvm).Ok?
    ensures Inv(DoWithdrawal(p, who, a, amount, recipient, fromEvm).value)
  {
    PayKeeps(p, who, a, amount);
    var r := DoWithdrawal(p, who, a, amount, recipient, fromEvm).value;
    assert Redeemable(r.queue.claims, r.queue.nextId, r.paidIn, r.erc20ToAsset, r.settled);
  }

  lemma PopDropsClaims(q: Queue<Claim>)
    ensures Pop(q).nextId == q.nextId && forall id :: id in Pop(q).claims ==>
      id in q.claims && Pop(q).claims[id] == q.claims[id]
  {
  }

  lemma ProcessNextKeeps(p: Peg)
    requires Inv(p)
    ensures Inv(ProcessNext(p))
  {
    PopDropsClaims(p.queue);
    SettleKeeps(p.queue, Pop(p.queue).claims, p.paidIn, p.erc20ToAsset, p.settled);
  }

  lemma SettleKeeps(q: Queue<Claim>, claims: map<ClaimId, Claim>, paidIn: map<ClaimId, AssetId>,
                    toAsset: map<Token, AssetId>, settled: map<ClaimId, Option<AssetId>>)
    requires Redeemable(q.claims, q.nextId, paidIn, toAsset, settled)
    requires forall id :: id in claims ==> id in q.claims && claims[id] == q.claims[id]
    ensures Redeemable(claims, q.nextId, paidIn, toAsset, SettleNext(q, toAsset, settled))
  {
  }

  lemma {:induction false} ProcessKeeps(p: Peg, n: nat)
    requires Inv(p)
    ensures Inv(ProcessN(p, n))
    decreases n
  {
    if n > 0 {
      ProcessNextKeeps(p);
      ProcessKeeps(ProcessNext(p), n - 1);
    }
  }

  lemma TradeKeeps(p: Peg, a: AssetId, op: AssetConservation.Op)
    requires Inv(p) && Legal(p, Trade(a, op))
    ensures Inv(OutsidePeg(p, a, op))
  {
    var q := OutsidePeg(p, a, op);
    if a in p.assetToErc20 { LedgerStaysSquare(p.ga.LedgerOf(a), a, p.ga.dust, op); }
    BackedMoves(p.ga, q.ga, p.nextAssetId, p.nextAssetId, p.assetToErc20, p.assetToErc20, BooksOf(p), BooksOf(q), a);
  }

  lemma ApplyKeeps(p: Peg, op: PegSpec.Op)
    requires Inv(p) && Legal(p, op)
    ensures Inv(Apply(p, op))
  {
    match op
    case Credit(t, x, b, can) => if DoDeposit(p, t, x, b, can).Ok? { CreditKeeps(p, t, x, b, can); }
    case Withdraw(who, a, x, rec, evm) =>
      if DoWithdrawal(p, who, a, x, rec, evm).Ok? { WithdrawKeeps(p, who, a, x, rec, evm); }
    case Process(n) => ProcessKeeps(p, n);
    case OtherAsset(owner) => CreateKeeps(p, owner);
    case Trade(a, o) => TradeKeeps(p, a, o);
    case _ =>
  }

  // ---- The claim queue inside the peg ----

  ghost predicate DelaysOk(p: Peg) { forall a :: a in p.claimDelay ==> 1 <= p.claimDelay[a].1 }

  lemma {:induction false} ProcessPops(p: Peg, n: nat)
    ensures ProcessN(p, n).queue == PopN(p.queue, n) && ProcessN(p, n).claimDelay == p.claimDelay
    decreases n
  {
    if n > 0 { ProcessPops(ProcessNext(p), n - 1); }
  }

  lemma SubmitQueue(p: Peg, c: Claim)
    requires c.Deposit? && DepositClaim(p, c).Ok? && DelaysOk(p)
    ensures
      var q := DepositClaim(p, c).value;
      && q.claimDelay == p.claimDelay
      && (q.queue == p.queue || (c.token in p.erc20ToAsset && p.erc20ToAsset[c.token] in p.claimDelay
                                 && q.queue == Delay(p.queue, p.claimDelay[p.erc20ToAsset[c.token]].1, c)))
  {
  }

  lemma EnsureQueue(p: Peg, token: Token)
    ensures EnsureAsset(p, token).queue == p.queue && EnsureAsset(p, token).claimDelay == p.claimDelay
  {
  }

  lemma CreditAssetQueue(p: Peg, a: AssetId, amount: nat, beneficiary: AccountId)
    ensures CreditAsset(p, a, amount, beneficiary).queue == p.queue
      && CreditAsset(p, a, amount, beneficiary).claimDelay == p.claimDelay
  {
    if a == p.staking && p.cennzDepositsActive {
    } else {
    }
  }

  lemma PayQueue(p: Peg, who: AccountId, a: AssetId, amount: nat)
    requires Pay(p, who, a, amount).Ok?
    ensures Pay(p, who, a, amount).value.queue == p.queue && Pay(p, who, a, amount).value.claimDelay == p.claimDelay
  {
    if a == p.staking {
    } else {
    }
  }

  lemma WithdrawQueue(p: Peg, who: AccountId, a: AssetId, amount: nat, recipient: nat, fromEvm: bool)
    requires DoWithdrawal(p, who, a, amount, recipient, fromEvm).Ok? && DelaysOk(p)
    ensures
      var q := DoWithdrawal(p, who, a, amount, recipient, fromEvm).value;
      && q.claimDelay == p.claimDelay
      && (q.queue == p.queue || (a in p.claimDelay && a in p.assetToErc20
                                 && q.queue ==
                                   Delay(p.queue, p.claimDelay[a].1, Withdrawal(p.assetToErc20[a], amount, recipient))))
  {
    if Pay(p, who, a, amount).Ok? { PayQueue(p, who, a, amount); }
  }

  lemma CreditQueue(p: Peg, token: Token, amount: nat, beneficiary: AccountId, canCreate: bool)
    requires DoDeposit(p, token, amount, beneficiary, canCreate).Ok?
    ensures
      var q := DoDeposit(p, token, amount, beneficiary, canCreate).value;
      q.queue == p.queue && q.claimDelay == p.claimDelay
  {
    EnsureQueue(p, token);
    var q := EnsureAsset(p, token);
    CreditAssetQueue(q, q.erc20ToAsset[token], amount, beneficiary);
  }

  /** Whatever the peg does to its queue keeps the queue's own invariant. */
  lemma ApplyKeepsQueue(p: Peg, op: PegSpec.Op)
    requires Q.Inv(p.queue) && DelaysOk(p) && (op.SetClaimDelay? ==> 1 <= op.delay)
    ensures Q.Inv(Apply(p, op).queue) && DelaysOk(Apply(p, op))
  {
    match op
    case Credit(t, x, b, can) => if DoDeposit(p, t, x, b, can).Ok? { CreditQueue(p, t, x, b, can); }
    case SubmitDeposit(t, x, b, h) =>
      var c := Deposit(t, x, b, h);
      if DepositClaim(p, c).Ok? {
        SubmitQueue(p, c);
        if DepositClaim(p, c).value.queue != p.queue { Q.DelayKeeps(p.queue, p.claimDelay[p.erc20ToAsset[t]].1, c); }
      }
    case Withdraw(who, a, x, rec, evm) =>
      if DoWithdrawal(p, who, a, x, rec, evm).Ok? {
        WithdrawQueue(p, who, a, x, rec, evm);
        if DoWithdrawal(p, who, a, x, rec, evm).value.queue != p.queue {
          Q.DelayKeeps(p.queue, p.claimDelay[a].1, Withdrawal(p.assetToErc20[a], x, rec));
        }
      }
    case NextBlock => Q.NewBlockKeeps(p.queue);
    case Process(n) => ProcessPops(p, n); Q.PopNKeeps(p.queue, n);
    case _ =>
  }

  ghost predicate LegalRun(p: Peg, ops: seq<PegSpec.Op>)
    decreases |ops|
  {
    ops == [] || (Legal(p, ops[0]) && LegalRun(Apply(p, ops[0]), ops[1..]))
  }

  /** Over any run: each bridged asset's issuance is what was deposited, less what was withdrawn, plus
      what other operations such as slashes did to it. */
  lemma {:induction false} BridgedAssetsBacked(p: Peg, ops: seq<PegSpec.Op>)
    requires Inv(p) && LegalRun(p, ops)
    ensures
      var q := Run(p, ops);
      && Inv(q)
      && forall a :: a in q.assetToErc20 ==>
        q.ga.LedgerOf(a).issuance + q.Withdrawn(a) == q.Deposited(a) + q.Elsewhere(a)
    decreases |ops|
  {
    if ops != [] {
      ApplyKeeps(p, ops[0]);
      BridgedAssetsBacked(Apply(p, ops[0]), ops[1..]);
    }
    assert forall a :: a in Run(p, ops).assetToErc20 ==>
      Run(p, ops).ga.LedgerOf(a).issuance == BooksOf(Run(p, ops)).Owed(a);
  }

  /** Every operation on asset `a` from outside the peg only moves it between accounts. */
  ghost predicate OnlyMoved(p: Peg, ops: seq<PegSpec.Op>, a: AssetId)
    decreases |ops|
  {
    ops == [] || (
      && (ops[0].Trade? && ops[0].asset == a ==> Circulates(p.ga.LedgerOf(a), ops[0].op))
      && OnlyMoved(Apply(p, ops[0]), ops[1..], a))
  }

  lemma {:induction false} ElsewhereUnchanged(p: Peg, ops: seq<PegSpec.Op>, a: AssetId)
    requires OnlyMoved(p, ops, a)
    ensures Run(p, ops).Elsewhere(a) == p.Elsewhere(a)
    decreases |ops|
  {
    if ops != [] {
      ElsewhereAfter(p, ops[0], a);
      ElsewhereUnchanged(Apply(p, ops[0]), ops[1..], a);
    }
  }

  /** From genesis: the issuance of a bridged asset that is otherwise only moved between accounts is exactly
      its completed deposits minus its paid withdrawals, whatever happens to other assets. */
  lemma BackedByDeposits(now: Block, ga: State, next: AssetId, staking: AssetId, account: AccountId,
                         tokens: map<Token, AssetId>, ops: seq<PegSpec.Op>, a: AssetId)
    requires StartsClean(ga, next, staking, tokens)
    requires
      var p := Genesis(now, ga, next, staking, account, tokens);
      LegalRun(p, ops) && OnlyMoved(p, ops, a)
    ensures
      var q := Run(Genesis(now, ga, next, staking, account, tokens), ops);
      a in q.assetToErc20 ==> q.ga.LedgerOf(a).issuance + q.Withdrawn(a) == q.Deposited(a)
  {
    var p := Genesis(now, ga, next, staking, account, tokens);
    GenesisSound(now, ga, next, staking, account, tokens);
    BridgedAssetsBacked(p, ops);
    ElsewhereUnchanged(p, ops, a);
  }

  lemma CreditElsewhere(p: Peg, t: Token, x: nat, b: AccountId, can: bool)
    requires DoDeposit(p, t, x, b, can).Ok?
    ensures DoDeposit(p, t, x, b, can).value.elsewhere == p.elsewhere
  {
    CreditFrame(EnsureAsset(p, t), EnsureAsset(p, t).erc20ToAsset[t], x, b);
  }

  lemma WithdrawElsewhere(p: Peg, who: AccountId, a: AssetId, x: nat, rec: nat, evm: bool)
    requires DoWithdrawal(p, who, a, x, rec, evm).Ok?
    ensures DoWithdrawal(p, who, a, x, rec, evm).value.elsewhere == p.elsewhere
  {
    PayFrame(p, who, a, x);
  }

  lemma TradeElsewhere(p: Peg, b: AssetId, o: AssetConservation.Op, a: AssetId)
    requires b == a ==> Circulates(p.ga.LedgerOf(a), o)
    ensures OutsidePeg(p, b, o).Elsewhere(a) == p.Elsewhere(a)
  {
    if b == a { CirculationKeeps(p.ga, a, o); }
  }

  lemma ElsewhereAfter(p: Peg, op: PegSpec.Op, a: AssetId)
    requires op.Trade? && op.asset == a ==> Circulates(p.ga.LedgerOf(a), op.op)
    ensures Apply(p, op).Elsewhere(a) == p.Elsewhere(a)
  {
    if op.Trade? {
      TradeElsewhere(p, op.asset, op.op, a);
    } else {
      assert Apply(p, op).elsewhere == p.elsewhere by { SameElsewhere(p, op); }
    }
  }

  lemma SameElsewhere(p: Peg, op: PegSpec.Op)
    requires !op.Trade?
    ensures Apply(p, op).elsewhere == p.elsewhere
  {
    match op
    case Credit(t, x, b, can) => if DoDeposit(p, t, x, b, can).Ok? { CreditElsewhere(p, t, x, b, can); }
    case Withdraw(who, a, x, rec, evm) =>
      if DoWithdrawal(p, who, a, x, rec, evm).Ok? { WithdrawElsewhere(p, who, a, x, rec, evm); }
    case Process(n) => ProcessElsewhere(p, n);
    case _ =>
  }

  lemma CreditFrame(p: Peg, a: AssetId, amount: nat, beneficiary: AccountId)
    ensures
      var q := CreditAsset(p, a, amount, beneficiary);
      q == p.(ga := q.ga, deposited := q.deposited)
  {
    if a == p.staking && p.cennzDepositsActive {
    } else {
    }
  }

  lemma PayFrame(p: Peg, who: AccountId, a: AssetId, amount: nat)
    requires Pay(p, who, a, amount).Ok?
    ensures
      var q := Pay(p, who, a, amount).value;
      q == p.(ga := q.ga, withdrawn := q.withdrawn)
  {
    if a == p.staking {
    } else {
    }
  }

  lemma {:induction false} ProcessElsewhere(p: Peg, n: nat)
    ensures ProcessN(p, n).elsewhere == p.elsewhere
    decreases n
  {
    if n > 0 { ProcessElsewhere(ProcessNext(p), n - 1); }
  }

  // ---- Maps and claims, over every run ----

  ghost predicate Mapped(p: Peg) {
    && MapsAgree(p.staking, p.nextAssetId, p.erc20ToAsset, p.assetToErc20)
    && Redeemable(p.queue.claims, p.queue.nextId, p.paidIn, p.erc20ToAsset, p.settled)
  }

  lemma EnsureMapped(p: Peg, token: Token)
    requires Mapped(p)
    ensures Mapped(EnsureAsset(p, token))
  {
    if token !in p.erc20ToAsset { MapsNew(p.staking, p.nextAssetId, p.erc20ToAsset, p.assetToErc20, token); }
  }

  lemma DelayMapped(p: Peg, a: AssetId, delay: nat, amount: nat, recipient: nat)
    requires Mapped(p) && a in p.assetToErc20
    ensures Mapped(DelayPaid(p, a, delay, Withdrawal(p.assetToErc20[a], amount, recipient)))
  {
  }

  lemma WithdrawMapped(p: Peg, who: AccountId, a: AssetId, amount: nat, recipient: nat, fromEvm: bool)
    requires Mapped(p) && DoWithdrawal(p, who, a, amount, recipient, fromEvm).Ok?
    ensures Mapped(DoWithdrawal(p, who, a, amount, recipient, fromEvm).value)
  {
    PayFrame(p, who, a, amount);
    var q := Pay(p, who, a, amount).value;
    assert Mapped(q);
    if a in p.claimDelay && p.claimDelay[a].0 <= amount {
      DelayMapped(q, a, p.claimDelay[a].1, amount, recipient);
    }
  }

  lemma {:induction false} ProcessMapped(p: Peg, n: nat)
    requires Mapped(p)
    ensures Mapped(ProcessN(p, n))
    decreases n
  {
    if n > 0 {
      PopDropsClaims(p.queue);
      SettleKeeps(p.queue, Pop(p.queue).claims, p.paidIn, p.erc20ToAsset, p.settled);
      ProcessMapped(ProcessNext(p), n - 1);
    }
  }

  lemma CreditMapped(p: Peg, t: Token, x: nat, b: AccountId, can: bool)
    requires Mapped(p) && DoDeposit(p, t, x, b, can).Ok?
    ensures Mapped(DoDeposit(p, t, x, b, can).value)
  {
    EnsureMapped(p, t);
    CreditFrame(EnsureAsset(p, t), EnsureAsset(p, t).erc20ToAsset[t], x, b);
  }

  lemma SubmitMapped(p: Peg, c: Claim)
    requires Mapped(p) && c.Deposit? && DepositClaim(p, c).Ok?
    ensures Mapped(DepositClaim(p, c).value)
  {
  }

  lemma ApplyMapped(p: Peg, op: PegSpec.Op)
    requires Mapped(p)
    ensures Mapped(Apply(p, op))
  {
    match op
    case Credit(t, x, b, can) => if DoDeposit(p, t, x, b, can).Ok? { CreditMapped(p, t, x, b, can); }
    case SubmitDeposit(t, x, b, h) =>
      var c := Deposit(t, x, b, h);
      if DepositClaim(p, c).Ok? { SubmitMapped(p, c); }
    case Withdraw(who, a, x, rec, evm) =>
      if DoWithdrawal(p, who, a, x, rec, evm).Ok? { WithdrawMapped(p, who, a, x, rec, evm); }
    case Process(n) => ProcessMapped(p, n);
    case _ =>
  }

  /** Over every run whatsoever: the two token maps invert each other on the assets the peg created, and
      every delayed withdrawal, waiting or processed, leads to the asset it was paid in, so the branch for
      a missing asset is never taken. */
  lemma {:induction false} TokenMapsInvert(p: Peg, ops: seq<PegSpec.Op>)
    requires Mapped(p)
    ensures
      var q := Run(p, ops);
      && Mapped(q)
      && (forall a :: a in q.assetToErc20 ==>
            q.assetToErc20[a] in q.erc20ToAsset && q.erc20ToAsset[q.assetToErc20[a]] == a)
      && (forall id :: id in q.settled ==> q.settled[id].Some?)
    decreases |ops|
  {
    if ops != [] {
      ApplyMapped(p, ops[0]);
      TokenMapsInvert(Apply(p, ops[0]), ops[1..]);
    }
  }

  /** The claim queue inside the peg keeps its own invariant over every run whose claim delays are at
      least one block. */
  lemma {:induction false} QueueStaysSound(p: Peg, ops: seq<PegSpec.Op>)
    requires Q.Inv(p.queue) && DelaysOk(p)
    requires forall i :: 0 <= i < |ops| && ops[i].SetClaimDelay? ==> 1 <= ops[i].delay
    ensures Q.Inv(Run(p, ops).queue)
    decreases |ops|
  {
    if ops != [] {
      ApplyKeepsQueue(p, ops[0]);
      QueueStaysSound(Apply(p, ops[0]), ops[1..]);
    }
  }

  /** Genesis: no asset is mapped to a token, and at most the staking token to an asset. */
  function Genesis(now: Block, ga: State, next: AssetId, staking: AssetId, account: AccountId,
                   tokens: map<Token, AssetId>): Peg {
    Peg(Q.Fresh(now), ga, next, staking, account, tokens, map[], map[], false, false, false, map[], map[], map[],
        map[], map[])
  }

  ghost predicate StartsClean(ga: State, next: AssetId, staking: AssetId, tokens: map<Token, AssetId>) {
    && staking < next
    && (forall t :: t in tokens ==> tokens[t] == staking)
    && (forall a: nat :: next <= a ==> ga.LedgerOf(a) == NEW_LEDGER)
  }

  lemma GenesisSound(now: Block, ga: State, next: AssetId, staking: AssetId, account: AccountId,
                     tokens: map<Token, AssetId>)
    requires StartsClean(ga, next, staking, tokens)
    ensures var p := Genesis(now, ga, next, staking, account, tokens); Inv(p) && Q.Inv(p.queue) && DelaysOk(p)
  {
  }

  // ---- Whose balances ----

  /** What `x` holds of the asset deposits of `token` are credited in. */
  function FreeBefore(p: Peg, token: Token, x: AccountId): nat {
    if token in p.erc20ToAsset then p.ga.LedgerOf(p.erc20ToAsset[token]).Free(x) else 0
  }

  lemma IssueReaches(p: Peg, a: AssetId, amount: nat, beneficiary: AccountId, x: AccountId)
    requires !(a == p.staking && p.cennzDepositsActive)
    ensures CreditAsset(p, a, amount, beneficiary).ga.LedgerOf(a).Free(x) ==
      p.ga.LedgerOf(a).Free(x) + if x == beneficiary then amount else 0
  {
  }

  /** A deposit of a bridged token credits its beneficiary, and nobody else, with the whole amount. */
  lemma DepositReaches(p: Peg, token: Token, amount: nat, beneficiary: AccountId, canCreate: bool, x: AccountId)
    requires DoDeposit(p, token, amount, beneficiary, canCreate).Ok? && p.staking < p.nextAssetId
    requires token in p.erc20ToAsset ==> p.erc20ToAsset[token] != p.staking
    ensures
      var q := DoDeposit(p, token, amount, beneficiary, canCreate).value;
      && token in q.erc20ToAsset
      && FreeBefore(q, token, x) == FreeBefore(p, token, x) + if x == beneficiary then amount else 0
  {
    var q := EnsureAsset(p, token);
    EnsureFree(p, token, x);
    IssueReaches(q, q.erc20ToAsset[token], amount, beneficiary, x);
  }

  lemma EnsureFree(p: Peg, token: Token, x: AccountId)
    ensures FreeBefore(EnsureAsset(p, token), token, x) == FreeBefore(p, token, x)
  {
  }

  /** A withdrawal of a bridged asset takes the whole amount from its sender, and nothing from others. */
  lemma PaymentTakenFrom(p: Peg, who: AccountId, a: AssetId, amount: nat, x: AccountId)
    requires a != p.staking && Pay(p, who, a, amount).Ok?
    ensures Pay(p, who, a, amount).value.ga.LedgerOf(a).Free(x) + (if x == who then amount else 0) ==
      p.ga.LedgerOf(a).Free(x)
  {
  }

  /** Since genesis maps no asset to a token, the staking asset can never be withdrawn. */
  lemma StakingNeverWithdrawn(p: Peg, who: AccountId, amount: nat, recipient: nat, fromEvm: bool)
    requires Inv(p)
    ensures DoWithdrawal(p, who, p.staking, amount, recipient, fromEvm).Err?
  {
  }
}
