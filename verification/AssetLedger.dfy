/** The generic-asset ledger of one asset: balances, total issuance and the operations on them. */
module AssetLedger {
  import opened Prelude
  import opened AssetLocks

  type AccountId = nat
  type AssetId = nat

  datatype Error =
    | NoMintPermission
    | NoBurnPermission
    | TotalMintingOverflow
    | FreeMintingOverflow
    | TotalBurningUnderflow
    | FreeBurningUnderflow
    | InsufficientBalance
    | TransferOverflow
    | LiquidityRestrictions

  /** A move-only token for funds created (positive) or destroyed (negative) without accounting. */
  datatype Imbalance = Positive(asset: AssetId, amount: nat) | Negative(asset: AssetId, amount: nat)

  const ZERO: Imbalance := Positive(0, 0)

  datatype Ledger = Ledger(
    issuance: nat,
    existentialDeposit: nat,
    minter: Option<AccountId>,
    burner: Option<AccountId>,
    free: map<AccountId, nat>,
    reserved: map<AccountId, nat>,
    locks: map<AccountId, seq<Lock>>)
  {
    function Free(who: AccountId): nat { Get(free, who, 0) }

    function Reserved(who: AccountId): nat { Get(reserved, who, 0) }

    function LocksOf(who: AccountId): seq<Lock> { Get(locks, who, []) }

    function WithFree(who: AccountId, amount: nat): Ledger { this.(free := free[who := amount]) }

    /** A reserved balance of zero is not stored. */
    function WithReserved(who: AccountId, amount: nat): Ledger {
      this.(reserved := if amount == 0 then reserved - {who} else reserved[who := amount])
    }
  }

  /** A new ledger state together with the imbalances handed to the caller. */
  datatype Effect = Effect(ledger: Ledger, made: seq<Imbalance>)

  function MintFree(l: Ledger, who: AccountId, to: AccountId, amount: nat): Result<Effect, Error> {
    if l.minter != Some(who) then Err(NoMintPermission)
    else if l.issuance + amount > U128_MAX then Err(TotalMintingOverflow)
    else if l.Free(to) + amount > U128_MAX then Err(FreeMintingOverflow)
    else Ok(Effect(l.(issuance := l.issuance + amount).WithFree(to, l.Free(to) + amount), []))
  }

  function BurnFree(l: Ledger, who: AccountId, from: AccountId, amount: nat): Result<Effect, Error> {
    if l.burner != Some(who) then Err(NoBurnPermission)
    else if l.issuance < amount then Err(TotalBurningUnderflow)
    else if l.Free(from) < amount then Err(FreeBurningUnderflow)
    else Ok(Effect(l.(issuance := l.issuance - amount).WithFree(from, l.Free(from) - amount), []))
  }

  /** Take the whole free balance of `who` and hand it to the dust account. */
  function ReclaimFree(l: Ledger, dust: AccountId, who: AccountId): Ledger {
    var amount := l.Free(who);
    var taken := l.(free := l.free - {who});
    if amount > 0 then taken.WithFree(dust, SatAdd(taken.Free(dust), amount)) else taken
  }

  /** Set both new balances; a sender left below the existential deposit is reclaimed. */
  function Carry(l: Ledger, dust: AccountId, from: AccountId, to: AccountId, left: nat, arrived: nat): Ledger {
    var moved := l.WithFree(to, arrived).WithFree(from, left);
    if left < l.existentialDeposit then ReclaimFree(moved, dust, from) else moved
  }

  function MakeTransfer(l: Ledger, dust: AccountId, from: AccountId, to: AccountId,
                        amount: nat): Result<Effect, Error> {
    if l.Free(from) < amount then Err(InsufficientBalance)
    else if l.Free(to) + amount > U128_MAX then Err(TransferOverflow)
    else if !CanWithdraw(l.LocksOf(from), amount, {Transfer}, l.Free(from) - amount) then Err(LiquidityRestrictions)
    else if from == to then Ok(Effect(l, []))
    else
      Ok(Effect(Carry(l, dust, from, to, l.Free(from) - amount, l.Free(to) + amount), []))
  }

  /** Below the existential deposit the whole prior free balance is reclaimed, and the amount is
      reserved all the same. */
  function ReserveFunds(l: Ledger, dust: AccountId, who: AccountId, amount: nat): Result<Effect, Error> {
    if l.Free(who) < amount then Err(InsufficientBalance)
    else
      var left := l.Free(who) - amount;
      var held := l.Reserved(who) + amount;
      var paid := if left < l.existentialDeposit then ReclaimFree(l, dust, who) else l.WithFree(who, left);
      Ok(Effect(paid.(reserved := paid.reserved[who := held]), []))
  }

  /** The amount that could not be unreserved. */
  function UnreserveRest(l: Ledger, who: AccountId, amount: nat): nat { amount - Min(l.Reserved(who), amount) }

  function Unreserve(l: Ledger, who: AccountId, amount: nat): Effect {
    var actual := Min(l.Reserved(who), amount);
    Effect(l.WithReserved(who, l.Reserved(who) - actual).WithFree(who, l.Free(who) + actual), [])
  }

  /** The part of a slash that no balance could pay. */
  function SlashRest(l: Ledger, who: AccountId, amount: nat): nat {
    SlashReservedRest(l, who, amount - Min(l.Free(who), amount))
  }

  function SlashReservedRest(l: Ledger, who: AccountId, amount: nat): nat { amount - Min(l.Reserved(who), amount) }

  function SlashReserved(l: Ledger, asset: AssetId, who: AccountId, amount: nat): Effect {
    var slash := Min(l.Reserved(who), amount);
    Effect(l.WithReserved(who, l.Reserved(who) - slash), [Negative(asset, amount - SlashReservedRest(l, who, amount))])
  }

  /** Free balance first, then reserved. */
  function Slash(l: Ledger, asset: AssetId, who: AccountId, amount: nat): Effect {
    var freeSlash := Min(l.Free(who), amount);
    var first := l.WithFree(who, l.Free(who) - freeSlash);
    var second := if freeSlash < amount then SlashReserved(first, asset, who, amount - freeSlash).ledger else first;
    Effect(second, [Negative(asset, amount - SlashRest(l, who, amount))])
  }

  function RepatriateReserved(l: Ledger, payee: AccountId, beneficiary: AccountId, amount: nat): Effect {
    if amount == 0 then Effect(l, [])
    else
      var moved := Min(l.Reserved(payee), amount);
      Effect(l.WithFree(beneficiary, l.Free(beneficiary) + moved).WithReserved(payee, l.Reserved(payee) - moved), [])
  }

  function MakeFreeBalanceBe(l: Ledger, asset: AssetId, who: AccountId, balance: nat): Effect {
    Effect(l.WithFree(who, balance),
           [if l.Free(who) <= balance then Positive(asset, balance - l.Free(who))
            else Negative(asset, l.Free(who) - balance)])
  }

  function DepositCreating(l: Ledger, asset: AssetId, who: AccountId, value: nat): Effect {
    if value == 0 then Effect(l, [ZERO]) else MakeFreeBalanceBe(l, asset, who, l.Free(who) + value)
  }

  /** `MultiCurrency::withdraw`, which has no existential deposit rule. */
  function Withdraw(l: Ledger, asset: AssetId, who: AccountId, value: nat,
                    reasons: set<WithdrawReason>): Result<Effect, Error> {
    if value == 0 then Ok(Effect(l, [ZERO]))
    else if l.Free(who) < value then Err(InsufficientBalance)
    else if !CanWithdraw(l.LocksOf(who), value, reasons, l.Free(who) - value) then Err(LiquidityRestrictions)
    else Ok(Effect(l.WithFree(who, l.Free(who) - value), [Negative(asset, value)]))
  }

  /** `AssetCurrency::withdraw`, which reclaims a remainder below the existential deposit. */
  function CurrencyWithdraw(l: Ledger, asset: AssetId, dust: AccountId, who: AccountId, value: nat,
                            reasons: set<WithdrawReason>): Result<Effect, Error> {
    if l.Free(who) < value then Err(InsufficientBalance)
    else if !CanWithdraw(l.LocksOf(who), value, reasons, l.Free(who) - value) then Err(LiquidityRestrictions)
    else
      var left := l.Free(who) - value;
      Ok(Effect(if left < l.existentialDeposit then ReclaimFree(l, dust, who) else l.WithFree(who, left),
                [Negative(asset, value)]))
  }

  /** `AssetCurrency::issue`: new issuance, up to the u128 limit. */
  function Issue(l: Ledger, asset: AssetId, amount: nat): Effect {
    var actual := if l.issuance + amount <= U128_MAX then amount else SatSub(U128_MAX, l.issuance);
    Effect(l.(issuance := if l.issuance + amount <= U128_MAX then l.issuance + amount else Max(l.issuance, U128_MAX)),
           [Negative(asset, actual)])
  }

  /** `AssetCurrency::burn`: the reduced issuance is computed and thrown away. */
  function CurrencyBurn(l: Ledger, asset: AssetId, amount: nat): Effect {
    Effect(l, [Positive(asset, Min(amount, l.issuance))])
  }

  // ---- Imbalances ----

  function Split(i: Imbalance, amount: nat): (Imbalance, Imbalance) {
    var first := Min(i.amount, amount);
    (i.(amount := first), i.(amount := i.amount - first))
  }

  /** Two imbalances of one sign; the asset of the first is kept. */
  function Merge(i: Imbalance, j: Imbalance): Imbalance { i.(amount := SatAdd(i.amount, j.amount)) }

  /** Two imbalances of opposite signs; the asset of the first is kept. */
  function Offset(i: Imbalance, j: Imbalance): Imbalance {
    if i.amount >= j.amount then i.(amount := i.amount - j.amount)
    else if i.Positive? then Negative(i.asset, j.amount - i.amount)
    else Positive(i.asset, j.amount - i.amount)
  }

  /** Dropping an imbalance squares up the total issuance. */
  function DropInto(l: Ledger, i: Imbalance): Ledger {
    l.(issuance := if i.Positive? then SatAdd(l.issuance, i.amount) else SatSub(l.issuance, i.amount))
  }
}
