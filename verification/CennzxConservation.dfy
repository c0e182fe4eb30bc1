/** The exchange moves assets and never makes or loses any; traders pay and receive what was agreed. */
module CennzxConservation {
  import opened Prelude
  import opened MapSum
  import opened CennzxSpec
  import opened CennzxSafety

  /** The balances in one asset. */
  ghost function Of(bal: map<(Account, AssetId), nat>, x: AssetId): map<(Account, AssetId), nat> {
    map k | k in bal && k.1 == x :: bal[k]
  }

  /** All of one asset held by users and pools. */
  ghost function Held(s: State, x: AssetId): nat { Sum(Of(s.bal, x)) }

  lemma HeldUpdate(bal: map<(Account, AssetId), nat>, who: Account, a: AssetId, v: nat, x: AssetId)
    ensures Sum(Of(bal[(who, a) := v], x)) + (if a == x then Get(bal, (who, a), 0) else 0)
         == Sum(Of(bal, x)) + if a == x then v else 0
  {
    if a == x {
      assert Of(bal[(who, a) := v], x) == Of(bal, x)[(who, a) := v];
      assert Get(Of(bal, x), (who, a), 0) == Get(bal, (who, a), 0);
      SumUpdate(Of(bal, x), (who, a), v);
    } else {
      assert Of(bal[(who, a) := v], x) == Of(bal, x);
    }
  }

  lemma TransferConserves(s: State, from: Account, to: Account, asset: AssetId, amount: nat, x: AssetId)
    requires Transfer(s, from, to, asset, amount).Ok?
    ensures Held(Transfer(s, from, to, asset, amount).value, x) == Held(s, x)
  {
    if amount > 0 && from != to {
      var paid := s.bal[(to, asset) := s.Bal(to, asset) + amount];
      HeldUpdate(s.bal, to, asset, s.Bal(to, asset) + amount, x);
      HeldUpdate(paid, from, asset, s.Bal(from, asset) - amount, x);
    }
  }

  lemma TwoTransfersConserve(s: State, a: Account, b: Account, c: Account, d: Account, p: AssetId, q: AssetId,
                             v: nat, w: nat, x: AssetId)
    requires Transfer(s, a, b, p, v).Ok? && Transfer(Transfer(s, a, b, p, v).value, c, d, q, w).Ok?
    ensures Held(Transfer(Transfer(s, a, b, p, v).value, c, d, q, w).value, x) == Held(s, x)
  {
    TransferConserves(s, a, b, p, v, x);
    TransferConserves(Transfer(s, a, b, p, v).value, c, d, q, w, x);
  }

  lemma TradeConserves(s: State, trader: Account, recipient: Account, y: AssetId, z: AssetId, sell: nat, buy: nat,
                       x: AssetId)
    requires ExecuteTrade(s, trader, recipient, y, z, sell, buy).Ok?
    ensures Held(ExecuteTrade(s, trader, recipient, y, z, sell, buy).value, x) == Held(s, x)
  {
    if y == s.core || z == s.core {
      var pool := PoolOf(if z == s.core then y else z);
      TwoTransfersConserve(s, trader, pool, pool, recipient, y, z, sell, buy, x);
    } else {
      var core := AssetToCoreSellPrice(s, y, sell).value;
      var t := Transfer(s, trader, PoolOf(y), y, sell).value;
      TransferConserves(s, trader, PoolOf(y), y, sell, x);
      TwoTransfersConserve(t, PoolOf(y), PoolOf(z), PoolOf(z), recipient, s.core, z, core, buy, x);
    }
  }

  lemma LiquidityConserves(s: State, op: Op, x: AssetId)
    requires (op.Add? || op.Remove?) && Apply(s, op).Ok?
    ensures Held(Apply(s, op).value, x) == Held(s, x)
  {
    var (who, pool) := (User(op.who), PoolOf(op.asset));
    if op.Add? {
      var paid := AddQuote(s, op.asset, op.maxAsset, op.coreAmount).0;
      TwoTransfersConserve(s, who, pool, who, pool, s.core, op.asset, op.coreAmount, paid, x);
    } else {
      var (coreOut, assetOut) :=
          LiquidityValue(s.AssetReserve(op.asset), s.CoreReserve(op.asset), op.liquidity, s.Total(op.asset));
      TwoTransfersConserve(s, pool, who, pool, who, s.core, op.asset, coreOut, assetOut, x);
    }
  }

  lemma StepConserves(s: State, op: Op, x: AssetId)
    ensures Held(Step(s, op), x) == Held(s, x)
  {
    if Apply(s, op).Ok? {
      match op
      case Add(_, _, _, _, _) => LiquidityConserves(s, op, x);
      case Remove(_, _, _, _, _) => LiquidityConserves(s, op, x);
      case Buy(who, to, y, z, b, _) =>
        TradeConserves(s, User(who), User(to), y, z, GetBuyPrice(s, z, b, y).value, b, x);
      case Sell(who, to, y, z, v, _) =>
        TradeConserves(s, User(who), User(to), y, z, v, GetSellPrice(s, y, v, z).value, x);
      case SetFeeRate(_) =>
      case Donate(who, pool, a, v) => TransferConserves(s, User(who), PoolOf(pool), a, v, x);
    }
  }

  /** Over any run, the amount of every asset held by users and pools together is unchanged. */
  lemma {:induction false} AssetsConserved(s: State, ops: seq<Op>, x: AssetId)
    ensures Held(Run(s, ops), x) == Held(s, x)
    decreases |ops|
  {
    if ops != [] {
      StepConserves(s, ops[0], x);
      AssetsConserved(Step(s, ops[0]), ops[1..], x);
    }
  }

  // ---- Traders ----

  /** What a trade does to the balance of user `v` in asset `z`. */
  lemma TraderPays(s: State, who: nat, to: nat, x: AssetId, y: AssetId, sell: nat, buy: nat, v: nat, z: AssetId)
    requires x != y && ExecuteTrade(s, User(who), User(to), x, y, sell, buy).Ok?
    ensures
      var t := ExecuteTrade(s, User(who), User(to), x, y, sell, buy).value;
      t.Bal(User(v), z) + (if v == who && z == x then sell else 0) ==
        s.Bal(User(v), z) + if v == to && z == y then buy else 0
  {
    if x == s.core || y == s.core {
      var pool := PoolOf(if y == s.core then x else y);
      var t := Transfer(s, User(who), pool, x, sell).value;
      TransferMoves(s, User(who), pool, x, sell, User(v), z);
      TransferMoves(t, pool, User(to), y, buy, User(v), z);
    } else {
      var core := AssetToCoreSellPrice(s, x, sell).value;
      var t := Transfer(s, User(who), PoolOf(x), x, sell).value;
      var u := Transfer(t, PoolOf(x), PoolOf(y), s.core, core).value;
      TransferMoves(s, User(who), PoolOf(x), x, sell, User(v), z);
      TransferMoves(t, PoolOf(x), PoolOf(y), s.core, core, User(v), z);
      TransferMoves(u, PoolOf(y), User(to), y, buy, User(v), z);
    }
  }

  /** A successful buy delivers exactly the amount bought, for no more than the agreed maximum. */
  lemma BuyWithinLimit(s: State, op: Op)
    requires op.Buy? && op.assetToSell != op.assetToBuy && Apply(s, op).Ok?
    ensures
      var t := Apply(s, op).value;
      && t.Bal(User(op.to), op.assetToBuy) == s.Bal(User(op.to), op.assetToBuy) + op.buy
      && t.Bal(User(op.who), op.assetToSell) + op.maxSell >= s.Bal(User(op.who), op.assetToSell)
  {
    var sell := GetBuyPrice(s, op.assetToBuy, op.buy, op.assetToSell).value;
    TraderPays(s, op.who, op.to, op.assetToSell, op.assetToBuy, sell, op.buy, op.to, op.assetToBuy);
    TraderPays(s, op.who, op.to, op.assetToSell, op.assetToBuy, sell, op.buy, op.who, op.assetToSell);
  }

  /** A successful sell takes exactly the amount sold, for no less than the agreed minimum. */
  lemma SellWithinLimit(s: State, op: Op)
    requires op.Sell? && op.assetToSell != op.assetToBuy && Apply(s, op).Ok?
    ensures
      var t := Apply(s, op).value;
      && t.Bal(User(op.who), op.assetToSell) + op.sell == s.Bal(User(op.who), op.assetToSell)
      && t.Bal(User(op.to), op.assetToBuy) >= s.Bal(User(op.to), op.assetToBuy) + op.minBuy
  {
    var buy := GetSellPrice(s, op.assetToSell, op.sell, op.assetToBuy).value;
    TraderPays(s, op.who, op.to, op.assetToSell, op.assetToBuy, op.sell, buy, op.who, op.assetToSell);
    TraderPays(s, op.who, op.to, op.assetToSell, op.assetToBuy, op.sell, buy, op.to, op.assetToBuy);
  }
}
