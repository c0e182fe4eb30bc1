/** Fixed-point fee rates and the constant-product price formulas of the CENNZX exchange. */
module CennzxPricing {
  import opened Prelude
  import opened Arithmetic

  /** One whole unit of a `FeeRate<PerMillion>`. */
  const SCALE: nat := 1_000_000

  datatype Error =
    | EmptyExchangePool
    | InsufficientExchangePoolReserve
    | InsufficientBalance
    | InsufficientLiquidity
    | InsufficientTradeAssetBalance
    | InsufficientCoreAssetBalance
    | CannotTradeZero
    | CannotAddLiquidityWithZero
    | MinimumBuyRequirementNotMet
    | MaximumSellRequirementNotMet
    | MinimumTradeAssetRequirementNotMet
    | MinimumCoreAssetRequirementNotMet
    | MinimumLiquidityRequirementNotMet
    | MaximumTradeAssetRequirementNotMet
    | AssetCannotSwapForItself
    | TransferOverflow
    | Overflow
    | DivideByZero

  // Products below are taken in U256 by the source; with u128 operands they cannot saturate.

  function ToU128(h: nat): Option<nat> { if h <= U128_MAX then Some(h) else None }

  function FeeAdd(a: nat, b: nat): Option<nat> { ToU128(a + b) }

  function FeeMul(a: nat, m: nat): Option<nat> { ToU128(MulDiv(a, m, SCALE)) }

  function FeeDiv(a: nat, d: nat): Option<nat> { if d == 0 then None else ToU128(MulDiv(a, SCALE, d)) }

  function CalculateBuyPrice(fee: nat, buy: nat, sellReserve: nat, buyReserve: nat): Result<nat, Error> {
    if sellReserve == 0 || buyReserve == 0 then Err(EmptyExchangePool)
    else if buyReserve <= buy then Err(InsufficientExchangePoolReserve)
    else
      var price := MulDiv(sellReserve, buy, buyReserve - buy);
      if price > U128_MAX then Err(Overflow)
      else if price + 1 > U128_MAX then Err(Overflow)
      else
        var rate := FeeAdd(fee, SCALE);
        if rate.None? then Err(Overflow)
        else
          var output := FeeMul(rate.value, price + 1);
          if output.None? then Err(Overflow) else Ok(output.value)
  }

  function CalculateSellPrice(fee: nat, sell: nat, sellReserve: nat, buyReserve: nat): Result<nat, Error> {
    if sellReserve == 0 || buyReserve == 0 then Err(EmptyExchangePool)
    else
      var rate := FeeAdd(fee, SCALE);
      if rate.None? then Err(Overflow)
      else
        var scaled := FeeDiv(sell, rate.value);
        if scaled.None? then Err(DivideByZero)
        else
          var price := MulDiv(buyReserve, scaled.value, scaled.value + sellReserve);
          if price > U128_MAX then Err(Overflow)
          else if buyReserve <= price then Err(InsufficientExchangePoolReserve)
          else Ok(price)
  }

  /** The smallest payment that keeps the product of the reserves, fees aside. */
  function FeeFreePrice(buy: nat, sellReserve: nat, buyReserve: nat): nat
    requires buy < buyReserve
  {
    (sellReserve * buy + (buyReserve - buy) - 1) / (buyReserve - buy)
  }

  lemma FeeFreePriceExact(buy: nat, sellReserve: nat, buyReserve: nat, pay: nat)
    requires buy < buyReserve
    ensures FeeFreePrice(buy, sellReserve, buyReserve) <= pay
       <==> (sellReserve + pay) * (buyReserve - buy) >= sellReserve * buyReserve
  {
    var d := buyReserve - buy;
    var n := sellReserve * buy;
    assert (sellReserve + pay) * d == sellReserve * buyReserve - n + pay * d;
    if pay * d >= n {
      assert n + d - 1 < (pay + 1) * d;
      DivAtMost(n + d - 1, d, pay);
    } else {
      assert (pay + 1) * d <= n + d - 1;
      DivAtLeast(n + d - 1, d, pay + 1);
    }
  }

  /** The rounded-up, fee-bearing buy price pays at least the fee-free price. */
  lemma BuyPriceKeepsProduct(fee: nat, buy: nat, sellReserve: nat, buyReserve: nat)
    requires CalculateBuyPrice(fee, buy, sellReserve, buyReserve).Ok?
    ensures buy < buyReserve
    ensures
      var pay := CalculateBuyPrice(fee, buy, sellReserve, buyReserve).value;
      && FeeFreePrice(buy, sellReserve, buyReserve) <= pay
      && (sellReserve + pay) * (buyReserve - buy) >= sellReserve * buyReserve
      && 0 < pay
  {
    var d := buyReserve - buy;
    var n := sellReserve * buy;
    var p1 := MulDiv(sellReserve, buy, d) + 1;
    var pay := CalculateBuyPrice(fee, buy, sellReserve, buyReserve).value;
    MulDivBounds(sellReserve, buy, d);
    assert p1 * d > n;
    FeeOnTop(fee, p1);
    MulMono(p1, pay, d, d);
    assert (sellReserve + pay) * d == sellReserve * buyReserve - n + pay * d;
    FeeFreePriceExact(buy, sellReserve, buyReserve, pay);
  }

  lemma FeeOnTop(fee: nat, p: nat)
    ensures p <= MulDiv(fee + SCALE, p, SCALE)
  {
    assert (fee + SCALE) * p == fee * p + p * SCALE;
    DivAtLeast((fee + SCALE) * p, SCALE, p);
  }

  lemma FeeOff(fee: nat, x: nat)
    ensures MulDiv(x, SCALE, fee + SCALE) <= x
  {
    assert (x + 1) * (fee + SCALE) == x * fee + x * SCALE + fee + SCALE;
    DivAtMost(x * SCALE, fee + SCALE, x);
  }

  /** What a sell pays out never takes the product of the reserves below where it was. */
  lemma SellPriceKeepsProduct(fee: nat, sell: nat, sellReserve: nat, buyReserve: nat)
    requires CalculateSellPrice(fee, sell, sellReserve, buyReserve).Ok?
    ensures
      var out := CalculateSellPrice(fee, sell, sellReserve, buyReserve).value;
      && out < buyReserve
      && (sellReserve + sell) * (buyReserve - out) >= sellReserve * buyReserve
  {
    var s := MulDiv(sell, SCALE, fee + SCALE);
    var out := CalculateSellPrice(fee, sell, sellReserve, buyReserve).value;
    FeeOff(fee, sell);
    MulDivBounds(buyReserve, s, s + sellReserve);
    MulMono(sellReserve + s, sellReserve + sell, buyReserve - out, buyReserve - out);
    assert (sellReserve + s) * (buyReserve - out)
        == sellReserve * buyReserve + buyReserve * s - out * (s + sellReserve);
  }

  // ---- The two-hop buy: a quote by the buy formula, settled by the sell formula ----

  /** Taking the fee off a fee-inclusive price loses at most one unit, and none exactly when
      the fee product was a whole number. */
  lemma FeeRoundTrip(fee: nat, p: nat)
    requires 0 < p
    ensures
      var rate := fee + SCALE;
      var s := MulDiv(MulDiv(rate, p, SCALE), SCALE, rate);
      && (s == p || s == p - 1)
      && (s == p <==> rate * p % SCALE == 0)
  {
    var rate := fee + SCALE;
    var pay := MulDiv(rate, p, SCALE);
    var s := MulDiv(pay, SCALE, rate);
    DivBounds(rate * p, SCALE);
    DivBounds(pay * SCALE, rate);
    assert rate * p == pay * SCALE + rate * p % SCALE;
    assert (p + 1) * rate == rate * p + rate;
    DivAtMost(pay * SCALE, rate, p);
    assert (p - 1) * rate == rate * p - rate;
    DivAtLeast(pay * SCALE, rate, p - 1);
    if s == p {
      assert p * rate == rate * p;
    }
    if rate * p % SCALE == 0 {
      assert p * rate <= pay * SCALE;
      DivAtLeast(pay * SCALE, rate, p);
    }
  }

  /** How far the proceeds of `s` scaled units are from `q`: the overshoot of `s` over the exact
      fee-free price of `q`. */
  lemma Overshoot(q: nat, R: nat, S: nat, s: nat)
    requires q < R
    ensures R * s - q * (s + S) == s * (R - q) - S * q
  {
  }

  /** One unit more than the fee-free price, rounded down, brings in at least the quote. */
  lemma DriftUp(q: nat, R: nat, S: nat, s: nat)
    requires 0 < S && q < R
    requires s == MulDiv(S, q, R - q) + 1
    ensures q <= MulDiv(R, s, s + S) <= q + R / S
  {
    var d, n, k := R - q, S * q, R / S;
    MulDivBounds(S, q, d);
    assert (s - 1) * d == s * d - d;
    Overshoot(q, R, S, s);
    DivAtLeast(R * s, s + S, q);
    DivBounds(R, S);
    assert (k + 1) * S == k * S + S;
    MulMono(k + 1, k + 1, S, s + S);
    assert (q + k + 1) * (s + S) == q * (s + S) + (k + 1) * (s + S);
    DivAtMost(R * s, s + S, q + k);
  }

  /** The fee-free price rounded down brings in at most the quote, and all of it exactly when
      nothing was rounded. */
  lemma DriftDown(q: nat, R: nat, S: nat, s: nat)
    requires 0 < S && q < R
    requires s == MulDiv(S, q, R - q)
    ensures MulDiv(R, s, s + S) <= q
    ensures MulDiv(R, s, s + S) == q <==> S * q % (R - q) == 0
  {
    var d, n := R - q, S * q;
    MulDivBounds(S, q, d);
    assert n == n / d * d + n % d;
    Overshoot(q, R, S, s);
    assert (q + 1) * (s + S) == q * (s + S) + (s + S);
    DivAtMost(R * s, s + S, q);
    MulDivBounds(R, s, s + S);
    if n % d == 0 {
      DivAtLeast(R * s, s + S, q);
    }
  }

  lemma DriftDownBound(q: nat, R: nat, S: nat, s: nat)
    requires 0 < S && q < R
    requires s == MulDiv(S, q, R - q)
    ensures q <= MulDiv(R, s, s + S) + R / S + 1
  {
    var d, n, m := R - q, S * q, R / S + 1;
    if m < q {
      MulDivBounds(S, q, d);
      Overshoot(q, R, S, s);
      DivBounds(R, S);
      assert m * S == R / S * S + S;
      MulMono(m, m, S, s + S);
      assert (q - m) * (s + S) == q * (s + S) - m * (s + S);
      DivAtLeast(R * s, s + S, q - m);
    }
  }

  /** Exact behaviour of settling a buy quote of `q` core with the sell formula: the amount moved
      is within `R / S + 1` of the quote, and covers it exactly when one of the two roundings on
      the way was no rounding at all. */
  lemma QuoteDrift(fee: nat, q: nat, S: nat, R: nat)
    requires CalculateBuyPrice(fee, q, S, R).Ok?
    requires CalculateSellPrice(fee, CalculateBuyPrice(fee, q, S, R).value, S, R).Ok?
    ensures q < R && 0 < S
    ensures
      var c := CalculateSellPrice(fee, CalculateBuyPrice(fee, q, S, R).value, S, R).value;
      && c <= q + R / S
      && q <= c + R / S + 1
      && (q <= c <==> (fee + SCALE) * (MulDiv(S, q, R - q) + 1) % SCALE == 0 || S * q % (R - q) == 0)
  {
    var p1 := MulDiv(S, q, R - q) + 1;
    var pay := CalculateBuyPrice(fee, q, S, R).value;
    assert pay == MulDiv(fee + SCALE, p1, SCALE);
    var s := MulDiv(pay, SCALE, fee + SCALE);
    FeeRoundTrip(fee, p1);
    assert 0 <= R / S;
    if s == p1 {
      DriftUp(q, R, S, s);
    } else {
      DriftDown(q, R, S, s);
      DriftDownBound(q, R, S, s);
    }
  }
}
