/** The exchange pallet as an object over its storage, each call proved against the specification. */
module CennzxExchange {
  import opened Prelude
  import opened CennzxPricing
  import opened CennzxSpec
  import opened Arithmetic

  /** A dispatch that either lands in the specified state or changes nothing and reports the error. */
  ghost predicate Follows<T>(spec: Outcome, r: Result<T, Error>, before: State, after: State) {
    if spec.Ok? then r.Ok? && after == spec.value else r == Err(spec.error) && after == before
  }

  class Exchange {
    const core: AssetId
    var fee: nat
    var bal: map<(Account, AssetId), nat>
    var total: map<AssetId, nat>
    var shares: map<AssetId, map<Account, nat>>

    function View(): State
      reads this
    {
      State(core, fee, bal, total, shares)
    }

    constructor (coreAsset: AssetId, feeRate: nat, balances: map<(Account, AssetId), nat>)
      ensures View() == State(coreAsset, feeRate, balances, map[], map[])
    {
      core, fee, bal, total, shares := coreAsset, feeRate, balances, map[], map[];
    }

    method Move(from: Account, to: Account, asset: AssetId, amount: nat) returns (r: Result<(), Error>)
      modifies this`bal
      ensures Follows(Transfer(old(View()), from, to, asset, amount), r, old(View()), View())
    {
      if amount == 0 { return Ok(()); }
      var (fromBalance, toBalance) := (Get(bal, (from, asset), 0), Get(bal, (to, asset), 0));
      if fromBalance < amount { return Err(InsufficientBalance); }
      if toBalance + amount > U128_MAX { return Err(TransferOverflow); }
      if from == to { return Ok(()); }
      bal := bal[(to, asset) := toBalance + amount];
      bal := bal[(from, asset) := fromBalance - amount];
      return Ok(());
    }

    method Mint(asset: AssetId, who: Account, increase: nat)
      modifies this`total, this`shares
      ensures View() == MintLiquidity(old(View()), asset, who, increase)
    {
      var held := Get(shares, asset, map[]);
      shares := shares[asset := held[who := SatAdd(Get(held, who, 0), increase)]];
      total := total[asset := SatAdd(Get(total, asset, 0), increase)];
    }

    method Burn(asset: AssetId, who: Account, decrease: nat)
      modifies this`total, this`shares
      ensures View() == BurnLiquidity(old(View()), asset, who, decrease)
    {
      var held := Get(shares, asset, map[]);
      var balance := Get(held, who, 0);
      var d := Min(decrease, balance);
      shares := shares[asset := held[who := balance - d]];
      total := total[asset := SatSub(Get(total, asset, 0), d)];
    }

    method AddToPool(who: Account, asset: AssetId, minLiquidity: nat, maxAsset: nat, coreAmount: nat)
      returns (r: Result<(), Error>)
      modifies this`bal, this`total, this`shares
      ensures Follows(AddLiquidity(old(View()), who, asset, minLiquidity, maxAsset, coreAmount), r, old(View()), View())
    {
      var snapshot := bal;
      if maxAsset == 0 || coreAmount == 0 { return Err(CannotAddLiquidityWithZero); }
      if Get(bal, (who, core), 0) < coreAmount { return Err(InsufficientCoreAssetBalance); }
      if Get(bal, (who, asset), 0) < maxAsset { return Err(InsufficientTradeAssetBalance); }
      var totalLiquidity := Get(total, asset, 0);
      var coreReserve := Get(bal, (PoolOf(asset), core), 0);
      var assetAmount, minted := maxAsset, coreAmount;
      if totalLiquidity != 0 && coreReserve != 0 {
        var assetReserve := Get(bal, (PoolOf(asset), asset), 0);
        assetAmount := MulDiv(coreAmount, assetReserve, coreReserve) + 1;
        minted := MulDiv(coreAmount, totalLiquidity, coreReserve);
      }
      if minted < minLiquidity { return Err(MinimumLiquidityRequirementNotMet); }
      if maxAsset < assetAmount { return Err(MaximumTradeAssetRequirementNotMet); }
      r := Move(who, PoolOf(asset), core, coreAmount);
      if r.Err? { bal := snapshot; return; }
      r := Move(who, PoolOf(asset), asset, assetAmount);
      if r.Err? { bal := snapshot; return; }
      Mint(asset, who, minted);
    }

    method RemoveFromPool(who: Account, asset: AssetId, liquidity: nat, minAsset: nat, minCore: nat)
      returns (r: Result<(), Error>)
      modifies this`bal, this`total, this`shares
      ensures Follows(RemoveLiquidity(old(View()), who, asset, liquidity, minAsset, minCore), r, old(View()), View())
    {
      var snapshot := bal;
      if Get(Get(shares, asset, map[]), who, 0) < liquidity { return Err(InsufficientLiquidity); }
      var totalLiquidity := Get(total, asset, 0);
      var (coreOut, assetOut) := LiquidityValue(
        Get(bal, (PoolOf(asset), asset), 0), Get(bal, (PoolOf(asset), core), 0), liquidity, totalLiquidity);
      if totalLiquidity == 0 { return Err(EmptyExchangePool); }
      if coreOut < minCore { return Err(MinimumCoreAssetRequirementNotMet); }
      if assetOut < minAsset { return Err(MinimumTradeAssetRequirementNotMet); }
      r := Move(PoolOf(asset), who, core, coreOut);
      if r.Err? { bal := snapshot; return; }
      r := Move(PoolOf(asset), who, asset, assetOut);
      if r.Err? { bal := snapshot; return; }
      Burn(asset, who, liquidity);
    }

    /** Every transfer is attempted, even after one has failed; the first error is the result and
        undoes them all. */
    method Settle(trader: Account, recipient: Account, assetToSell: AssetId, assetToBuy: AssetId, sell: nat, buy: nat)
      returns (r: Result<(), Error>)
      modifies this`bal
      ensures Follows(ExecuteTrade(old(View()), trader, recipient, assetToSell, assetToBuy, sell, buy), r,
                      old(View()), View())
    {
      var snapshot := bal;
      if assetToSell == core || assetToBuy == core {
        var pool := PoolOf(if assetToBuy == core then assetToSell else assetToBuy);
        r := Move(trader, pool, assetToSell, sell);
        var second := Move(pool, recipient, assetToBuy, buy);
        if r.Ok? { r := second; }
      } else {
        var coreAmount := AssetToCoreSellPrice(View(), assetToSell, sell);
        if coreAmount.Err? { return Err(coreAmount.error); }
        r := Move(trader, PoolOf(assetToSell), assetToSell, sell);
        var second := Move(PoolOf(assetToSell), PoolOf(assetToBuy), core, coreAmount.value);
        if r.Ok? { r := second; }
        var third := Move(PoolOf(assetToBuy), recipient, assetToBuy, buy);
        if r.Ok? { r := third; }
      }
      if r.Err? { bal := snapshot; }
    }

    /** On success the result is the amount sold. */
    method BuyAsset(trader: Account, recipient: Account, assetToSell: AssetId, assetToBuy: AssetId, buy: nat,
                    maxSell: nat)
      returns (r: Result<nat, Error>)
      modifies this`bal
      ensures Follows(ExecuteBuy(old(View()), trader, recipient, assetToSell, assetToBuy, buy, maxSell), r,
                      old(View()), View())
      ensures r.Ok? ==> r == GetBuyPrice(old(View()), assetToBuy, buy, assetToSell)
    {
      r := GetBuyPrice(View(), assetToBuy, buy, assetToSell);
      if r.Err? { return; }
      if maxSell < r.value { return Err(MaximumSellRequirementNotMet); }
      if Get(bal, (trader, assetToSell), 0) < r.value { return Err(InsufficientBalance); }
      var done := Settle(trader, recipient, assetToSell, assetToBuy, r.value, buy);
      if done.Err? { return Err(done.error); }
    }

    /** On success the result is the amount bought. */
    method SellAsset(trader: Account, recipient: Account, assetToSell: AssetId, assetToBuy: AssetId, sell: nat,
                     minBuy: nat)
      returns (r: Result<nat, Error>)
      modifies this`bal
      ensures Follows(ExecuteSell(old(View()), trader, recipient, assetToSell, assetToBuy, sell, minBuy), r,
                      old(View()), View())
      ensures r.Ok? ==> r == GetSellPrice(old(View()), assetToSell, sell, assetToBuy)
    {
      if Get(bal, (trader, assetToSell), 0) < sell { return Err(InsufficientBalance); }
      r := GetSellPrice(View(), assetToSell, sell, assetToBuy);
      if r.Err? { return; }
      if r.value < minBuy { return Err(MinimumBuyRequirementNotMet); }
      var done := Settle(trader, recipient, assetToSell, assetToBuy, sell, r.value);
      if done.Err? { return Err(done.error); }
    }
  }
}
