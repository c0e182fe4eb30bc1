/** The generic-asset pallet over its storage maps, each call proved against the ledger specification. */
module AssetPallet {
  import opened Prelude
  import opened AssetLocks
  import opened AssetLedger

  /** Existential deposit and the accounts that may mint and burn. */
  datatype Meta = Meta(existentialDeposit: nat, minter: Option<AccountId>, burner: Option<AccountId>)

  class Pallet {
    var issuance: map<AssetId, nat>
    var free: map<AssetId, map<AccountId, nat>>
    var reserved: map<AssetId, map<AccountId, nat>>
    var locks: map<AssetId, map<AccountId, seq<Lock>>>
    var meta: map<AssetId, Meta>
    const dust: AccountId

    function LedgerAt(a: AssetId): Ledger
      reads this
    {
      var m := Get(meta, a, Meta(1, None, None));
      Ledger(Get(issuance, a, 0), m.existentialDeposit, m.minter, m.burner,
             Get(free, a, map[]), Get(reserved, a, map[]), Get(locks, a, map[]))
    }

    constructor (assets: map<AssetId, Meta>, dustAccount: AccountId)
      ensures meta == assets && dust == dustAccount
      ensures issuance == map[] && free == reserved == map[] && locks == map[]
    {
      issuance, free, reserved, locks, meta, dust := map[], map[], map[], map[], assets, dustAccount;
    }

    /** `create_asset` with no initial supply, for an id not used before. */
    method CreateAsset(a: AssetId, info: Meta, owner: AccountId)
      modifies this`issuance, this`free, this`meta
      ensures
        var l := old(LedgerAt(a));
        LedgerAt(a) ==
          Ledger(0, info.existentialDeposit, info.minter, info.burner, l.free[owner := 0], l.reserved, l.locks)
      ensures forall b :: b != a ==> LedgerAt(b) == old(LedgerAt(b))
    {
      issuance := issuance[a := 0];
      free := free[a := Get(free, a, map[])[owner := 0]];
      meta := meta[a := info];
    }

    method SetFreeBalance(a: AssetId, who: AccountId, balance: nat)
      modifies this`free
      ensures LedgerAt(a) == old(LedgerAt(a)).WithFree(who, balance)
      ensures forall b :: b != a ==> LedgerAt(b) == old(LedgerAt(b))
    {
      free := free[a := Get(free, a, map[])[who := balance]];
    }

    method InsertReserved(a: AssetId, who: AccountId, balance: nat)
      modifies this`reserved
      ensures LedgerAt(a) == old(LedgerAt(a)).(reserved := old(LedgerAt(a)).reserved[who := balance])
      ensures forall b :: b != a ==> LedgerAt(b) == old(LedgerAt(b))
    {
      reserved := reserved[a := Get(reserved, a, map[])[who := balance]];
    }

    method SetReservedBalance(a: AssetId, who: AccountId, balance: nat)
      modifies this`reserved
      ensures LedgerAt(a) == old(LedgerAt(a)).WithReserved(who, balance)
      ensures forall b :: b != a ==> LedgerAt(b) == old(LedgerAt(b))
    {
      var held := Get(reserved, a, map[]);
      reserved := reserved[a := if balance == 0 then held - {who} else held[who := balance]];
    }

    /** Take the free balance of `who` out of storage and add it to the dust account's. */
    method ReclaimFreeBalance(a: AssetId, who: AccountId)
      modifies this`free
      ensures LedgerAt(a) == ReclaimFree(old(LedgerAt(a)), dust, who)
      ensures forall b :: b != a ==> LedgerAt(b) == old(LedgerAt(b))
    {
      var held := Get(free, a, map[]);
      var amount := Get(held, who, 0);
      free := free[a := held - {who}];
      if amount > 0 {
        var beneficiaryBalance := Get(Get(free, a, map[]), dust, 0);
        SetFreeBalance(a, dust, SatAdd(beneficiaryBalance, amount));
      }
    }

    method Mint(a: AssetId, who: AccountId, to: AccountId, amount: nat) returns (r: Result<(), Error>)
      modifies this`issuance, this`free
      ensures
        var spec := MintFree(old(LedgerAt(a)), who, to, amount);
        if spec.Ok? then r.Ok? && LedgerAt(a) == spec.value.ledger
        else r == Err(spec.error) && LedgerAt(a) == old(LedgerAt(a))
      ensures forall b :: b != a ==> LedgerAt(b) == old(LedgerAt(b))
    {
      if LedgerAt(a).minter != Some(who) { return Err(NoMintPermission); }
      var (total, balance) := (Get(issuance, a, 0), LedgerAt(a).Free(to));
      if total + amount > U128_MAX { return Err(TotalMintingOverflow); }
      if balance + amount > U128_MAX { return Err(FreeMintingOverflow); }
      issuance := issuance[a := total + amount];
      SetFreeBalance(a, to, balance + amount);
      return Ok(());
    }

    method Burn(a: AssetId, who: AccountId, from: AccountId, amount: nat) returns (r: Result<(), Error>)
      modifies this`issuance, this`free
      ensures
        var spec := BurnFree(old(LedgerAt(a)), who, from, amount);
        if spec.Ok? then r.Ok? && LedgerAt(a) == spec.value.ledger
        else r == Err(spec.error) && LedgerAt(a) == old(LedgerAt(a))
      ensures forall b :: b != a ==> LedgerAt(b) == old(LedgerAt(b))
    {
      if LedgerAt(a).burner != Some(who) { return Err(NoBurnPermission); }
      var (total, balance) := (Get(issuance, a, 0), LedgerAt(a).Free(from));
      if total < amount { return Err(TotalBurningUnderflow); }
      if balance < amount { return Err(FreeBurningUnderflow); }
      issuance := issuance[a := total - amount];
      SetFreeBalance(a, from, balance - amount);
      return Ok(());
    }

    method CarryOver(a: AssetId, from: AccountId, to: AccountId, left: nat, arrived: nat)
      modifies this`free
      ensures LedgerAt(a) == Carry(old(LedgerAt(a)), dust, from, to, left, arrived)
      ensures forall b :: b != a ==> LedgerAt(b) == old(LedgerAt(b))
    {
      SetFreeBalance(a, to, arrived);
      SetFreeBalance(a, from, left);
      if left < LedgerAt(a).existentialDeposit { ReclaimFreeBalance(a, from); }
    }

    method Move(a: AssetId, from: AccountId, to: AccountId, amount: nat) returns (r: Result<(), Error>)
      modifies this`free
      ensures
        var spec := MakeTransfer(old(LedgerAt(a)), dust, from, to, amount);
        if spec.Ok? then r.Ok? && LedgerAt(a) == spec.value.ledger
        else r == Err(spec.error) && LedgerAt(a) == old(LedgerAt(a))
      ensures forall b :: b != a ==> LedgerAt(b) == old(LedgerAt(b))
    {
      var (fromBalance, toBalance) := (LedgerAt(a).Free(from), LedgerAt(a).Free(to));
      if fromBalance < amount { return Err(InsufficientBalance); }
      if toBalance + amount > U128_MAX { return Err(TransferOverflow); }
      if !CanWithdraw(LedgerAt(a).LocksOf(from), amount, {Transfer}, fromBalance - amount) {
        return Err(LiquidityRestrictions);
      }
      if from != to { CarryOver(a, from, to, fromBalance - amount, toBalance + amount); }
      return Ok(());
    }

    method Reserve(a: AssetId, who: AccountId, amount: nat) returns (r: Result<(), Error>)
      modifies this`free, this`reserved
      ensures
        var spec := ReserveFunds(old(LedgerAt(a)), dust, who, amount);
        if spec.Ok? then r.Ok? && LedgerAt(a) == spec.value.ledger
        else r == Err(spec.error) && LedgerAt(a) == old(LedgerAt(a))
      ensures forall b :: b != a ==> LedgerAt(b) == old(LedgerAt(b))
    {
      var (held, balance) := (LedgerAt(a).Reserved(who), LedgerAt(a).Free(who));
      if balance < amount {
        r := Err(InsufficientBalance);
      } else {
        if balance - amount < LedgerAt(a).existentialDeposit {
          ReclaimFreeBalance(a, who);
        } else {
          SetFreeBalance(a, who, balance - amount);
        }
        InsertReserved(a, who, held + amount);
        r := Ok(());
      }
    }

    /** Returns what could not be unreserved. */
    method UnreserveUpTo(a: AssetId, who: AccountId, amount: nat) returns (rest: nat)
      modifies this`free, this`reserved
      ensures LedgerAt(a) == Unreserve(old(LedgerAt(a)), who, amount).ledger
      ensures rest == UnreserveRest(old(LedgerAt(a)), who, amount)
      ensures forall b :: b != a ==> LedgerAt(b) == old(LedgerAt(b))
    {
      var (held, balance) := (LedgerAt(a).Reserved(who), LedgerAt(a).Free(who));
      var actual := Min(held, amount);
      SetReservedBalance(a, who, held - actual);
      SetFreeBalance(a, who, balance + actual);
      rest := amount - actual;
    }

    /** Returns what the reserved balance could not pay. */
    method SlashReservedUpTo(a: AssetId, who: AccountId, amount: nat) returns (rest: nat)
      modifies this`reserved
      ensures LedgerAt(a) == SlashReserved(old(LedgerAt(a)), a, who, amount).ledger
      ensures rest == SlashReservedRest(old(LedgerAt(a)), who, amount)
      ensures forall b :: b != a ==> LedgerAt(b) == old(LedgerAt(b))
    {
      var held := LedgerAt(a).Reserved(who);
      var slash := Min(held, amount);
      SetReservedBalance(a, who, held - slash);
      rest := amount - slash;
    }

    /** Slash the free balance first, then the reserved one; the imbalance is what was taken. */
    method SlashUpTo(a: AssetId, who: AccountId, amount: nat) returns (taken: Imbalance, rest: nat)
      modifies this`free, this`reserved
      ensures Effect(LedgerAt(a), [taken]) == Slash(old(LedgerAt(a)), a, who, amount)
      ensures rest == SlashRest(old(LedgerAt(a)), who, amount)
      ensures forall b :: b != a ==> LedgerAt(b) == old(LedgerAt(b))
    {
      var balance := LedgerAt(a).Free(who);
      var freeSlash := Min(balance, amount);
      SetFreeBalance(a, who, balance - freeSlash);
      rest := 0;
      if freeSlash < amount { rest := SlashReservedUpTo(a, who, amount - freeSlash); }
      taken := Negative(a, amount - rest);
    }

    method Repatriate(a: AssetId, payee: AccountId, beneficiary: AccountId, amount: nat) returns (rest: nat)
      modifies this`free, this`reserved
      ensures LedgerAt(a) == RepatriateReserved(old(LedgerAt(a)), payee, beneficiary, amount).ledger
      ensures rest == SlashReservedRest(old(LedgerAt(a)), payee, amount)
      ensures forall b :: b != a ==> LedgerAt(b) == old(LedgerAt(b))
    {
      if amount == 0 { return 0; }
      var held := LedgerAt(a).Reserved(payee);
      var moved := Min(held, amount);
      var balance := LedgerAt(a).Free(beneficiary);
      SetFreeBalance(a, beneficiary, balance + moved);
      SetReservedBalance(a, payee, held - moved);
      rest := amount - moved;
    }

    method SetFreeTo(a: AssetId, who: AccountId, balance: nat) returns (made: Imbalance)
      modifies this`free
      ensures Effect(LedgerAt(a), [made]) == MakeFreeBalanceBe(old(LedgerAt(a)), a, who, balance)
      ensures forall b :: b != a ==> LedgerAt(b) == old(LedgerAt(b))
    {
      var original := LedgerAt(a).Free(who);
      made := if original <= balance then Positive(a, balance - original) else Negative(a, original - balance);
      SetFreeBalance(a, who, balance);
    }

    method TakeOut(a: AssetId, who: AccountId, value: nat, reasons: set<WithdrawReason>)
        returns (r: Result<Imbalance, Error>)
      modifies this`free
      ensures
        var spec := Withdraw(old(LedgerAt(a)), a, who, value, reasons);
        if spec.Ok? then r.Ok? && Effect(LedgerAt(a), [r.value]) == spec.value
        else r == Err(spec.error) && LedgerAt(a) == old(LedgerAt(a))
      ensures forall b :: b != a ==> LedgerAt(b) == old(LedgerAt(b))
    {
      if value == 0 { return Ok(ZERO); }
      var balance := LedgerAt(a).Free(who);
      if balance < value { return Err(InsufficientBalance); }
      if !CanWithdraw(LedgerAt(a).LocksOf(who), value, reasons, balance - value) { return Err(LiquidityRestrictions); }
      SetFreeBalance(a, who, balance - value);
      return Ok(Negative(a, value));
    }

    /** The drop handler of an imbalance. */
    method SquareUp(i: Imbalance)
      modifies this`issuance
      ensures LedgerAt(i.asset) == DropInto(old(LedgerAt(i.asset)), i)
      ensures forall b :: b != i.asset ==> LedgerAt(b) == old(LedgerAt(b))
    {
      var total := Get(issuance, i.asset, 0);
      issuance := issuance[i.asset := if i.Positive? then SatAdd(total, i.amount) else SatSub(total, i.amount)];
    }
  }
}
