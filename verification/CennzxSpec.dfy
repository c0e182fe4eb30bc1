/** CENNZX as a transition system: balances, liquidity shares and the dispatchable operations. */
module CennzxSpec {
  import opened Prelude
  import opened Arithmetic
  import opened CennzxPricing

  type AssetId = nat

  /** Exchange addresses are hashes in the source; here they are a constructor of their own, so
      they are distinct from each other and from every trader. */
  datatype Account = User(id: nat) | PoolOf(asset: AssetId)

  datatype State = State(
    core: AssetId,
    fee: nat,
    bal: map<(Account, AssetId), nat>,
    total: map<AssetId, nat>,
    shares: map<AssetId, map<Account, nat>>)
  {
    function Bal(who: Account, asset: AssetId): nat { Get(bal, (who, asset), 0) }

    function CoreReserve(asset: AssetId): nat { Bal(PoolOf(asset), core) }

    function AssetReserve(asset: AssetId): nat { Bal(PoolOf(asset), asset) }

    function Total(asset: AssetId): nat { Get(total, asset, 0) }

    function Shares(asset: AssetId): map<Account, nat> { Get(shares, asset, map[]) }

    function Share(asset: AssetId, who: Account): nat { Get(Shares(asset), who, 0) }
  }

  type Outcome = Result<State, Error>

  function Transfer(s: State, from: Account, to: Account, asset: AssetId, amount: nat): Outcome {
    if amount == 0 then Ok(s)
    else if s.Bal(from, asset) < amount then Err(InsufficientBalance)
    else if s.Bal(to, asset) + amount > U128_MAX then Err(TransferOverflow)
    else if from == to then Ok(s)
    else Ok(s.(bal := s.bal[(to, asset) := s.Bal(to, asset) + amount]
                           [(from, asset) := s.Bal(from, asset) - amount]))
  }

  // ---- Liquidity ----

  function MintLiquidity(s: State, asset: AssetId, who: Account, increase: nat): State {
    s.(shares := s.shares[asset := s.Shares(asset)[who := SatAdd(s.Share(asset, who), increase)]],
       total := s.total[asset := SatAdd(s.Total(asset), increase)])
  }

  function BurnLiquidity(s: State, asset: AssetId, who: Account, decrease: nat): State {
    var d := Min(decrease, s.Share(asset, who));
    s.(shares := s.shares[asset := s.Shares(asset)[who := s.Share(asset, who) - d]],
       total := s.total[asset := SatSub(s.Total(asset), d)])
  }

  /** The trade-asset deposit and the liquidity minted for a deposit of `coreAmount`. */
  function AddQuote(s: State, asset: AssetId, maxAsset: nat, coreAmount: nat): (nat, nat) {
    if s.Total(asset) == 0 || s.CoreReserve(asset) == 0 then (maxAsset, coreAmount)
    else (MulDiv(coreAmount, s.AssetReserve(asset), s.CoreReserve(asset)) + 1,
          MulDiv(coreAmount, s.Total(asset), s.CoreReserve(asset)))
  }

  function AddLiquidity(s: State, who: Account, asset: AssetId, minLiquidity: nat, maxAsset: nat,
                        coreAmount: nat): Outcome {
    if maxAsset == 0 || coreAmount == 0 then Err(CannotAddLiquidityWithZero)
    else if s.Bal(who, s.core) < coreAmount then Err(InsufficientCoreAssetBalance)
    else if s.Bal(who, asset) < maxAsset then Err(InsufficientTradeAssetBalance)
    else
      var (assetAmount, minted) := AddQuote(s, asset, maxAsset, coreAmount);
      if minted < minLiquidity then Err(MinimumLiquidityRequirementNotMet)
      else if maxAsset < assetAmount then Err(MaximumTradeAssetRequirementNotMet)
      else
        var t := Transfer(s, who, PoolOf(asset), s.core, coreAmount);
        if t.Err? then t
        else
          var u := Transfer(t.value, who, PoolOf(asset), asset, assetAmount);
          if u.Err? then u else Ok(MintLiquidity(u.value, asset, who, minted))
  }

  /** Core and trade asset paid out for `liquidity` shares of a pool. */
  function LiquidityValue(assetReserve: nat, coreReserve: nat, liquidity: nat, total: nat): (nat, nat) {
    if total == 0 then (0, 0)
    else (MulDiv(Min(liquidity, total), coreReserve, total), MulDiv(Min(liquidity, total), assetReserve, total))
  }

  function RemoveLiquidity(s: State, who: Account, asset: AssetId, liquidity: nat, minAsset: nat,
                           minCore: nat): Outcome {
    if s.Share(asset, who) < liquidity then Err(InsufficientLiquidity)
    else if s.Total(asset) == 0 then Err(EmptyExchangePool)
    else
      var (coreOut, assetOut) :=
        LiquidityValue(s.AssetReserve(asset), s.CoreReserve(asset), liquidity, s.Total(asset));
      if coreOut < minCore then Err(MinimumCoreAssetRequirementNotMet)
      else if assetOut < minAsset then Err(MinimumTradeAssetRequirementNotMet)
      else
        var t := Transfer(s, PoolOf(asset), who, s.core, coreOut);
        if t.Err? then t
        else
          var u := Transfer(t.value, PoolOf(asset), who, asset, assetOut);
          if u.Err? then u else Ok(BurnLiquidity(u.value, asset, who, liquidity))
  }

  // ---- Prices ----

  function AssetToCoreBuyPrice(s: State, asset: AssetId, buy: nat): Result<nat, Error> {
    if buy == 0 then Err(CannotTradeZero)
    else CalculateBuyPrice(s.fee, buy, s.AssetReserve(asset), s.CoreReserve(asset))
  }

  function CoreToAssetBuyPrice(s: State, asset: AssetId, buy: nat): Result<nat, Error> {
    if buy == 0 then Err(CannotTradeZero)
    else CalculateBuyPrice(s.fee, buy, s.CoreReserve(asset), s.AssetReserve(asset))
  }

  function AssetToCoreSellPrice(s: State, asset: AssetId, sell: nat): Result<nat, Error> {
    if sell == 0 then Err(CannotTradeZero)
    else CalculateSellPrice(s.fee, sell, s.AssetReserve(asset), s.CoreReserve(asset))
  }

  function CoreToAssetSellPrice(s: State, asset: AssetId, sell: nat): Result<nat, Error> {
    if sell == 0 then Err(CannotTradeZero)
    else CalculateSellPrice(s.fee, sell, s.CoreReserve(asset), s.AssetReserve(asset))
  }

  function GetBuyPrice(s: State, assetToBuy: AssetId, amount: nat, assetToPay: AssetId): Result<nat, Error> {
    if assetToBuy == assetToPay then Err(AssetCannotSwapForItself)
    else
      var coreAmount := if assetToBuy == s.core then Ok(amount) else CoreToAssetBuyPrice(s, assetToBuy, amount);
      if coreAmount.Err? || assetToPay == s.core then coreAmount
      else AssetToCoreBuyPrice(s, assetToPay, coreAmount.value)
  }

  function GetSellPrice(s: State, assetToSell: AssetId, amount: nat, assetToPayout: AssetId): Result<nat, Error> {
    if assetToSell == assetToPayout then Err(AssetCannotSwapForItself)
    else
      var coreAmount := if assetToSell == s.core then Ok(amount) else AssetToCoreSellPrice(s, assetToSell, amount);
      if coreAmount.Err? || assetToPayout == s.core then coreAmount
      else CoreToAssetSellPrice(s, assetToPayout, coreAmount.value)
  }

  // ---- Trades ----

  /** One exchange: `pool` takes `sell` from the trader and pays `buy` to the recipient. */
  function SingleHop(s: State, trader: Account, recipient: Account, pool: Account,
                     assetToSell: AssetId, assetToBuy: AssetId, sell: nat, buy: nat): Outcome {
    var t := Transfer(s, trader, pool, assetToSell, sell);
    if t.Err? then t else Transfer(t.value, pool, recipient, assetToBuy, buy)
  }

  /** Two exchanges, with `coreAmount` passing from the first pool to the second. */
  function DoubleHop(s: State, trader: Account, recipient: Account,
                     assetToSell: AssetId, assetToBuy: AssetId, sell: nat, coreAmount: nat, buy: nat): Outcome {
    var t := Transfer(s, trader, PoolOf(assetToSell), assetToSell, sell);
    if t.Err? then t
    else
      var u := Transfer(t.value, PoolOf(assetToSell), PoolOf(assetToBuy), s.core, coreAmount);
      if u.Err? then u else Transfer(u.value, PoolOf(assetToBuy), recipient, assetToBuy, buy)
  }

  /** The transfers of a trade. The source evaluates them all and rolls back on the first error,
      which is the same as stopping there. */
  function ExecuteTrade(s: State, trader: Account, recipient: Account,
                        assetToSell: AssetId, assetToBuy: AssetId, sell: nat, buy: nat): Outcome {
    if assetToSell == s.core || assetToBuy == s.core then
      var pool := PoolOf(if assetToBuy == s.core then assetToSell else assetToBuy);
      SingleHop(s, trader, recipient, pool, assetToSell, assetToBuy, sell, buy)
    else
      var coreAmount := AssetToCoreSellPrice(s, assetToSell, sell);
      if coreAmount.Err? then Err(coreAmount.error)
      else DoubleHop(s, trader, recipient, assetToSell, assetToBuy, sell, coreAmount.value, buy)
  }

  function ExecuteBuy(s: State, trader: Account, recipient: Account,
                      assetToSell: AssetId, assetToBuy: AssetId, buy: nat, maxSell: nat): Outcome {
    var sell := GetBuyPrice(s, assetToBuy, buy, assetToSell);
    if sell.Err? then Err(sell.error)
    else if maxSell < sell.value then Err(MaximumSellRequirementNotMet)
    else if s.Bal(trader, assetToSell) < sell.value then Err(InsufficientBalance)
    else ExecuteTrade(s, trader, recipient, assetToSell, assetToBuy, sell.value, buy)
  }

  function ExecuteSell(s: State, trader: Account, recipient: Account,
                       assetToSell: AssetId, assetToBuy: AssetId, sell: nat, minBuy: nat): Outcome {
    if s.Bal(trader, assetToSell) < sell then Err(InsufficientBalance)
    else
      var buy := GetSellPrice(s, assetToSell, sell, assetToBuy);
      if buy.Err? then Err(buy.error)
      else if buy.value < minBuy then Err(MinimumBuyRequirementNotMet)
      else ExecuteTrade(s, trader, recipient, assetToSell, assetToBuy, sell, buy.value)
  }

  // ---- Runs ----

  /** What can happen to the exchange in one step. Callers and recipients are never pool accounts;
      `Donate` is a plain asset transfer by a user to a pool account. */
  datatype Op =
    | Add(who: nat, asset: AssetId, minLiquidity: nat, maxAsset: nat, coreAmount: nat)
    | Remove(who: nat, asset: AssetId, liquidity: nat, minAsset: nat, minCore: nat)
    | Buy(who: nat, to: nat, assetToSell: AssetId, assetToBuy: AssetId, buy: nat, maxSell: nat)
    | Sell(who: nat, to: nat, assetToSell: AssetId, assetToBuy: AssetId, sell: nat, minBuy: nat)
    | SetFeeRate(rate: nat)
    | Donate(who: nat, pool: AssetId, asset: AssetId, amount: nat)

  function Apply(s: State, op: Op): Outcome {
    match op
    case Add(who, asset, minL, maxA, c) => AddLiquidity(s, User(who), asset, minL, maxA, c)
    case Remove(who, asset, l, minA, minC) => RemoveLiquidity(s, User(who), asset, l, minA, minC)
    case Buy(who, to, x, y, b, m) => ExecuteBuy(s, User(who), User(to), x, y, b, m)
    case Sell(who, to, x, y, v, m) => ExecuteSell(s, User(who), User(to), x, y, v, m)
    case SetFeeRate(rate) => Ok(s.(fee := rate))
    case Donate(who, pool, asset, amount) => Transfer(s, User(who), PoolOf(pool), asset, amount)
  }

  /** A failing operation is rolled back. */
  function Step(s: State, op: Op): State {
    var r := Apply(s, op);
    if r.Ok? then r.value else s
  }

  function Run(s: State, ops: seq<Op>): State
    decreases |ops|
  {
    if ops == [] then s else Run(Step(s, ops[0]), ops[1..])
  }
}
