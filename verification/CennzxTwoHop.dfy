/** The two-hop buy: quoted by the buy formula, settled by the sell formula. */
module CennzxTwoHop {
  import opened Prelude
  import opened Arithmetic
  import opened MapSum
  import opened CennzxPricing
  import opened CennzxSpec
  import opened CennzxSafety

  /** Neither rounding on the way from the quote to the payment lost anything. */
  predicate QuoteIsExact(s: State, assetToSell: AssetId, quote: nat) {
    var (R, S) := (s.CoreReserve(assetToSell), s.AssetReserve(assetToSell));
    quote < R && (
      || (s.fee + SCALE) * (MulDiv(S, quote, R - quote) + 1) % SCALE == 0
      || S * quote % (R - quote) == 0)
  }

  /** In a successful two-hop buy the core amount that really leaves the first pool and enters the
      second is within R / S + 1 of the quoted one, and covers it exactly when the quote is exact. */
  lemma TwoHopBuyDrift(s: State, op: Op)
    requires op.Buy? && TwoHop(s, op) && Apply(s, op).Ok?
    ensures
      var t := Apply(s, op).value;
      var (x, y) := (op.assetToSell, op.assetToBuy);
      var (R, S) := (s.CoreReserve(x), s.AssetReserve(x));
      var quote := CoreToAssetBuyPrice(s, y, op.buy);
      && quote.Ok? && 0 < S && t.CoreReserve(x) <= R
      && var moved := R - t.CoreReserve(x);
         && t.CoreReserve(y) == s.CoreReserve(y) + moved
         && moved <= quote.value + R / S
         && quote.value <= moved + R / S + 1
         && (quote.value <= moved <==> QuoteIsExact(s, x, quote.value))
  {
    var (x, y) := (op.assetToSell, op.assetToBuy);
    BuyIsTrade(s, op);
    TwoHopPriced(s, op);
    var quote := CoreToAssetBuyPrice(s, y, op.buy).value;
    var sell := GetBuyPrice(s, y, op.buy, x).value;
    TradeReserves(s, op.who, op.to, x, y, sell, op.buy, x);
    TradeReserves(s, op.who, op.to, x, y, sell, op.buy, y);
    SellPriceKeepsProduct(s.fee, sell, s.AssetReserve(x), s.CoreReserve(x));
    QuoteDrift(s.fee, quote, s.AssetReserve(x), s.CoreReserve(x));
  }

  /** An exact quote covers the second pool. */
  lemma ExactQuoteCovers(s: State, op: Op)
    requires op.Buy? && TwoHop(s, op) && Apply(s, op).Ok?
    requires QuoteIsExact(s, op.assetToSell, CoreToAssetBuyPrice(s, op.assetToBuy, op.buy).value)
    ensures Covered(s, op, op.assetToBuy)
  {
    var (x, y) := (op.assetToSell, op.assetToBuy);
    TwoHopPriced(s, op);
    QuoteDrift(s.fee, CoreToAssetBuyPrice(s, y, op.buy).value, s.AssetReserve(x), s.CoreReserve(x));
    BuyPriceKeepsProduct(s.fee, op.buy, s.CoreReserve(y), s.AssetReserve(y));
  }

  /** Two pools, each with a provider, a 0.3% fee, and a trader holding 50 of asset 1. */
  const LOSSY_STATE: State := State(0, 3000,
    map[(User(7), 1) := 50, (PoolOf(1), 0) := 100, (PoolOf(1), 1) := 2, (PoolOf(2), 0) := 100, (PoolOf(2), 2) := 100],
    map[1 := 100, 2 := 100], map[1 := map[User(8) := 100], 2 := map[User(8) := 100]])

  const LOSSY_BUY: Op := Buy(7, 7, 1, 2, 25, 50)

  lemma LossyInv()
    ensures Inv(LOSSY_STATE)
  {
    var s := LOSSY_STATE;
    assert Sum<Account>(map[]) == 0;
    SumUpdate(map[], User(8), 100);
    assert map[][User(8) := 100] == map[User(8) := 100];
    forall a ensures TotalIsSum(s, a) && s.Total(a) <= U128_MAX && (a != s.core ==> Backed(PoolAt(s, a))) {
      if a != 1 && a != 2 { assert s.Total(a) == 0 && s.Shares(a) == map[]; }
    }
  }

  lemma LossyPrices()
    ensures GetBuyPrice(LOSSY_STATE, 2, 25, 1) == Ok(2)
    ensures AssetToCoreSellPrice(LOSSY_STATE, 1, 2) == Ok(33)
  {
    var s := LOSSY_STATE;
    assert s.CoreReserve(1) == 100 && s.AssetReserve(1) == 2 && s.CoreReserve(2) == 100 && s.AssetReserve(2) == 100;
    assert CoreToAssetBuyPrice(s, 2, 25) == Ok(34);
    assert AssetToCoreBuyPrice(s, 1, 34) == Ok(2);
  }

  /** Buying 25 of asset 2 with asset 1 takes 25 from a 100/100 pool for 33 core: the product of
      that pool's reserves falls from 10000 to 9975, so `Covered` cannot be dropped. */
  lemma SecondPoolCanLose()
    ensures Inv(LOSSY_STATE) && Apply(LOSSY_STATE, LOSSY_BUY).Ok? && 0 < LOSSY_STATE.Total(2)
    ensures !NoWorse(PoolAt(LOSSY_STATE, 2), PoolAt(Apply(LOSSY_STATE, LOSSY_BUY).value, 2))
  {
    LossyPrices();
    LossyInv();
    var s := LOSSY_STATE;
    var t := Transfer(s, User(7), PoolOf(1), 1, 2);
    assert t.Ok?;
    TransferMoves(s, User(7), PoolOf(1), 1, 2, PoolOf(1), 0);
    TransferMoves(s, User(7), PoolOf(1), 1, 2, PoolOf(2), 0);
    TransferMoves(s, User(7), PoolOf(1), 1, 2, PoolOf(2), 2);
    TransferMoves(s, User(7), PoolOf(1), 1, 2, User(7), 2);
    var u := Transfer(t.value, PoolOf(1), PoolOf(2), 0, 33);
    assert u.Ok?;
    TransferMoves(t.value, PoolOf(1), PoolOf(2), 0, 33, PoolOf(2), 0);
    TransferMoves(t.value, PoolOf(1), PoolOf(2), 0, 33, PoolOf(2), 2);
    TransferMoves(t.value, PoolOf(1), PoolOf(2), 0, 33, User(7), 2);
    var v := Transfer(u.value, PoolOf(2), User(7), 2, 25);
    assert v.Ok?;
    TransferMoves(u.value, PoolOf(2), User(7), 2, 25, PoolOf(2), 0);
    TransferMoves(u.value, PoolOf(2), User(7), 2, 25, PoolOf(2), 2);
    assert Apply(s, LOSSY_BUY) == v;
    assert PoolAt(v.value, 2) == Pool(133, 75, 100) && PoolAt(s, 2) == Pool(100, 100, 100);
  }
}
