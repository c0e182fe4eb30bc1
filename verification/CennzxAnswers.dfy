/** When an exchange operation succeeds and what exactly it moves, stated by inequalities on reserves and
    balances alone. */
module CennzxAnswers {
  import opened Prelude
  import opened Arithmetic
  import opened CennzxPricing
  import opened CennzxSpec
  import opened CennzxSafety

  // ---- Amounts ----

  /** `e` is the largest amount that with the fee on top is no more than `v`. */
  predicate NetOfFee(fee: nat, v: nat, e: nat) { e * (fee + SCALE) <= v * SCALE < (e + 1) * (fee + SCALE) }

  /** `out` is the largest payout from `Y` that keeps the product when `X` grows by `e`. */
  predicate BestPayout(X: nat, Y: nat, e: nat, out: nat) {
    out < Y && (X + e) * (Y - out) >= X * Y > (X + e) * (Y - out - 1)
  }

  /** `p` is the smallest payment into `X` that makes the product grow when `b` leaves `Y`. */
  predicate LeastCharge(X: nat, Y: nat, b: nat, p: nat) {
    b < Y && 0 < p && (X + p) * (Y - b) > X * Y >= (X + p - 1) * (Y - b)
  }

  /** `pay` is `p` with the fee on top, rounded down. */
  predicate WithFee(fee: nat, p: nat, pay: nat) { pay * SCALE <= (fee + SCALE) * p < (pay + 1) * SCALE }

  /** Selling `v` into a pool with reserves `X` and `Y` pays `out`. */
  ghost predicate SellTerms(fee: nat, v: nat, X: nat, Y: nat, out: nat) {
    && 0 < v && 0 < X && 0 < Y && fee + SCALE <= U128_MAX && out <= U128_MAX
    && exists e: nat :: NetOfFee(fee, v, e) && e <= U128_MAX && BestPayout(X, Y, e, out)
  }

  /** Buying `b` out of a pool with reserves `X` and `Y` costs `pay`. */
  ghost predicate BuyTerms(fee: nat, b: nat, X: nat, Y: nat, pay: nat) {
    && 0 < b && 0 < X && fee + SCALE <= U128_MAX && pay <= U128_MAX
    && exists p: nat :: LeastCharge(X, Y, b, p) && p <= U128_MAX && WithFee(fee, p, pay)
  }

  lemma NetOfFeeIs(fee: nat, v: nat, e: nat)
    ensures NetOfFee(fee, v, e) <==> e == MulDiv(v, SCALE, fee + SCALE)
  {
    var r := MulDiv(v, SCALE, fee + SCALE);
    MulDivBounds(v, SCALE, fee + SCALE);
    assert (r + 1) * (fee + SCALE) == r * (fee + SCALE) + (fee + SCALE);
    if NetOfFee(fee, v, e) {
      DivAtLeast(v * SCALE, fee + SCALE, e);
      DivAtMost(v * SCALE, fee + SCALE, e);
    }
  }

  lemma BestPayoutIs(X: nat, Y: nat, e: nat, out: nat)
    requires 0 < X && 0 < Y
    ensures BestPayout(X, Y, e, out) <==> out == MulDiv(Y, e, e + X)
  {
    var (d, r) := (e + X, MulDiv(Y, e, e + X));
    MulDivBounds(Y, e, d);
    assert (r + 1) * d == r * d + d;
    assert Y * d == X * Y + Y * e;
    if r >= Y { MulMono(Y, r, d, d); }
    PayoutProduct(X, Y, e, r);
    if BestPayout(X, Y, e, out) {
      PayoutProduct(X, Y, e, out);
      DivAtLeast(Y * e, d, out);
      DivAtMost(Y * e, d, out);
    }
  }

  lemma PayoutProduct(X: nat, Y: nat, e: nat, out: nat)
    requires out < Y
    ensures (X + e) * (Y - out) >= X * Y <==> out * (e + X) <= Y * e
    ensures X * Y > (X + e) * (Y - out - 1) <==> Y * e < (out + 1) * (e + X)
  {
    assert (X + e) * (Y - out) == X * Y + Y * e - out * (e + X);
    assert (X + e) * (Y - out - 1) == X * Y + Y * e - (out + 1) * (e + X);
  }

  /** The sell price is the largest payout that keeps the product, and is quoted exactly when there is one. */
  lemma SellPriceExact(fee: nat, v: nat, X: nat, Y: nat, out: nat)
    ensures 0 < v && CalculateSellPrice(fee, v, X, Y) == Ok(out) <==> SellTerms(fee, v, X, Y, out)
  {
    var e := MulDiv(v, SCALE, fee + SCALE);
    forall e' ensures NetOfFee(fee, v, e') <==> e' == e { NetOfFeeIs(fee, v, e'); }
    if 0 < X && 0 < Y { BestPayoutIs(X, Y, e, out); }
    if 0 < X && 0 < Y { BestPayoutIs(X, Y, e, MulDiv(Y, e, e + X)); }
    assert NetOfFee(fee, v, e);
  }

  lemma LeastChargeIs(X: nat, Y: nat, b: nat, p: nat)
    requires b < Y
    ensures LeastCharge(X, Y, b, p) <==> p == MulDiv(X, b, Y - b) + 1
  {
    var (d, r) := (Y - b, MulDiv(X, b, Y - b));
    MulDivBounds(X, b, d);
    assert (r + 1) * d == r * d + d;
    ChargeProduct(X, Y, b, r + 1);
    if LeastCharge(X, Y, b, p) {
      ChargeProduct(X, Y, b, p);
      DivAtLeast(X * b, d, p - 1);
      DivAtMost(X * b, d, p - 1);
    }
  }

  lemma ChargeProduct(X: nat, Y: nat, b: nat, p: nat)
    requires b < Y && 0 < p
    ensures (X + p) * (Y - b) > X * Y <==> X * b < p * (Y - b)
    ensures X * Y >= (X + p - 1) * (Y - b) <==> (p - 1) * (Y - b) <= X * b
  {
    assert (X + p) * (Y - b) == X * Y - X * b + p * (Y - b);
    assert (X + p - 1) * (Y - b) == X * Y - X * b + (p - 1) * (Y - b);
  }

  lemma WithFeeIs(fee: nat, p: nat, pay: nat)
    ensures WithFee(fee, p, pay) <==> pay == MulDiv(fee + SCALE, p, SCALE)
  {
    var r := MulDiv(fee + SCALE, p, SCALE);
    MulDivBounds(fee + SCALE, p, SCALE);
    if WithFee(fee, p, pay) {
      DivAtLeast((fee + SCALE) * p, SCALE, pay);
      DivAtMost((fee + SCALE) * p, SCALE, pay);
    }
  }

  /** The buy price is the smallest charge that makes the product grow, with the fee on top, and is quoted
      exactly when the reserve holds more than is bought. */
  lemma BuyPriceExact(fee: nat, b: nat, X: nat, Y: nat, pay: nat)
    ensures 0 < b && CalculateBuyPrice(fee, b, X, Y) == Ok(pay) <==> BuyTerms(fee, b, X, Y, pay)
  {
    if b < Y {
      var p := MulDiv(X, b, Y - b) + 1;
      forall p' ensures LeastCharge(X, Y, b, p') <==> p' == p { LeastChargeIs(X, Y, b, p'); }
      assert LeastCharge(X, Y, b, p);
      WithFeeIs(fee, p, pay);
    }
  }

  /** Without the fee, a buyer pays at most one more than the least payment that keeps the product. */
  lemma ChargeNearLeast(X: nat, Y: nat, b: nat, p: nat)
    requires LeastCharge(X, Y, b, p)
    ensures FeeFreePrice(b, X, Y) <= p <= FeeFreePrice(b, X, Y) + 1
  {
    FeeFreePriceExact(b, X, Y, p);
    if 2 <= p {
      assert (X + (p - 2)) * (Y - b) == (X + p - 1) * (Y - b) - (Y - b);
      FeeFreePriceExact(b, X, Y, p - 2);
    }
  }

  // ---- Trades ----

  function If(here: bool, n: nat): nat { if here then n else 0 }

  predicate Fits(s: State, who: Account, asset: AssetId, n: nat) { n == 0 || s.Bal(who, asset) + n <= U128_MAX }

  /** The pool of a one-hop trade. */
  function PoolFor(core: AssetId, x: AssetId, y: AssetId): Account { PoolOf(if y == core then x else y) }

  predicate TwoPools(s: State, x: AssetId, y: AssetId) { x != s.core && y != s.core }

  /** Balances after `v` of `x` was exchanged for `out` of `y`, over two pools with `c` core in between. */
  ghost predicate Exchanged(s: State, t: State, who: nat, to: nat, x: AssetId, y: AssetId, v: nat, c: nat, out: nat) {
    && t == s.(bal := t.bal)
    && forall acct, z ::
      t.Bal(acct, z)
      + If(acct == User(who) && z == x, v)
      + (if TwoPools(s, x, y) then If(acct == PoolOf(x) && z == s.core, c) + If(acct == PoolOf(y) && z == y, out)
         else If(acct == PoolFor(s.core, x, y) && z == y, out))
      == s.Bal(acct, z)
         + If(acct == User(to) && z == y, out)
         + if TwoPools(s, x, y) then If(acct == PoolOf(x) && z == x, v) + If(acct == PoolOf(y) && z == s.core, c)
           else If(acct == PoolFor(s.core, x, y) && z == x, v)
  }

  /** The receiving accounts have room. */
  predicate Room(s: State, to: nat, x: AssetId, y: AssetId, v: nat, c: nat, out: nat) {
    && Fits(s, User(to), y, out)
    && if TwoPools(s, x, y) then Fits(s, PoolOf(x), x, v) && Fits(s, PoolOf(y), s.core, c)
       else Fits(s, PoolFor(s.core, x, y), x, v)
  }

  /** The amounts a trade needs are there. */
  predicate Funded(s: State, who: nat, x: AssetId, y: AssetId, v: nat, c: nat, out: nat) {
    && v <= s.Bal(User(who), x)
    && if TwoPools(s, x, y) then c <= s.CoreReserve(x) && out <= s.AssetReserve(y)
       else out <= s.Bal(PoolFor(s.core, x, y), y)
  }

  lemma SingleExchanges(s: State, who: nat, to: nat, x: AssetId, y: AssetId, v: nat, out: nat)
    requires x != y && !TwoPools(s, x, y)
    ensures
      var r := SingleHop(s, User(who), User(to), PoolFor(s.core, x, y), x, y, v, out);
      && (r.Ok? <==> Funded(s, who, x, y, v, 0, out) && Room(s, to, x, y, v, 0, out))
      && (r.Ok? ==> Exchanged(s, r.value, who, to, x, y, v, 0, out))
  {
    var pool := PoolFor(s.core, x, y);
    var t := Transfer(s, User(who), pool, x, v);
    if t.Ok? {
      forall acct, z ensures t.value.Bal(acct, z) + If(acct == User(who) && z == x, v) ==
          s.Bal(acct, z) + If(acct == pool && z == x, v) {
        TransferMoves(s, User(who), pool, x, v, acct, z);
      }
      var u := Transfer(t.value, pool, User(to), y, out);
      if u.Ok? {
        forall acct, z ensures u.value.Bal(acct, z) + If(acct == pool && z == y, out) ==
            t.value.Bal(acct, z) + If(acct == User(to) && z == y, out) {
          TransferMoves(t.value, pool, User(to), y, out, acct, z);
        }
      }
    }
  }

  lemma DoubleExchanges(s: State, who: nat, to: nat, x: AssetId, y: AssetId, v: nat, c: nat, out: nat)
    requires x != y && TwoPools(s, x, y)
    ensures
      var r := DoubleHop(s, User(who), User(to), x, y, v, c, out);
      && (r.Ok? <==> Funded(s, who, x, y, v, c, out) && Room(s, to, x, y, v, c, out))
      && (r.Ok? ==> Exchanged(s, r.value, who, to, x, y, v, c, out))
  {
    var t := Transfer(s, User(who), PoolOf(x), x, v);
    if t.Ok? {
      forall acct, z ensures t.value.Bal(acct, z) + If(acct == User(who) && z == x, v) ==
          s.Bal(acct, z) + If(acct == PoolOf(x) && z == x, v) {
        TransferMoves(s, User(who), PoolOf(x), x, v, acct, z);
      }
      var u := Transfer(t.value, PoolOf(x), PoolOf(y), s.core, c);
      if u.Ok? {
        forall acct, z ensures u.value.Bal(acct, z) + If(acct == PoolOf(x) && z == s.core, c) ==
            t.value.Bal(acct, z) + If(acct == PoolOf(y) && z == s.core, c) {
          TransferMoves(t.value, PoolOf(x), PoolOf(y), s.core, c, acct, z);
        }
        var w := Transfer(u.value, PoolOf(y), User(to), y, out);
        if w.Ok? {
          forall acct, z ensures w.value.Bal(acct, z) + If(acct == PoolOf(y) && z == y, out) ==
              u.value.Bal(acct, z) + If(acct == User(to) && z == y, out) {
            TransferMoves(u.value, PoolOf(y), User(to), y, out, acct, z);
          }
        }
      }
    }
  }

  lemma ExchangedOnce(s: State, t: State, who: nat, to: nat, x: AssetId, y: AssetId, v: nat, c: nat, out: nat,
                      c': nat, out': nat)
    requires x != y && Exchanged(s, t, who, to, x, y, v, c, out) && Exchanged(s, t, who, to, x, y, v, c', out')
    ensures out == out' && (TwoPools(s, x, y) ==> c == c')
  {
    var pool := if TwoPools(s, x, y) then PoolOf(y) else PoolFor(s.core, x, y);
    assert t.Bal(pool, y) + out == s.Bal(pool, y) && t.Bal(pool, y) + out' == s.Bal(pool, y);
    if TwoPools(s, x, y) {
      assert t.Bal(PoolOf(x), s.core) + c == s.Bal(PoolOf(x), s.core);
      assert t.Bal(PoolOf(x), s.core) + c' == s.Bal(PoolOf(x), s.core);
    }
  }

  /** The transfers of a trade at given prices. */
  lemma TradeExchanges(s: State, who: nat, to: nat, x: AssetId, y: AssetId, v: nat, c: nat, out: nat)
    requires x != y && (if TwoPools(s, x, y) then AssetToCoreSellPrice(s, x, v) == Ok(c) else c == 0)
    ensures
      var r := ExecuteTrade(s, User(who), User(to), x, y, v, out);
      && (r.Ok? <==> Funded(s, who, x, y, v, c, out) && Room(s, to, x, y, v, c, out))
      && (r.Ok? ==> Exchanged(s, r.value, who, to, x, y, v, c, out))
  {
    if TwoPools(s, x, y) {
      DoubleExchanges(s, who, to, x, y, v, c, out);
    } else {
      SingleExchanges(s, who, to, x, y, v, out);
    }
  }

  // ---- Sells ----

  /** What each pool of a sell pays: `out` by the last one, and `c` by the first of two. */
  ghost predicate SellLegs(s: State, x: AssetId, y: AssetId, v: nat, c: nat, out: nat) {
    if x == s.core then c == 0 && SellTerms(s.fee, v, s.CoreReserve(y), s.AssetReserve(y), out)
    else if y == s.core then c == 0 && SellTerms(s.fee, v, s.AssetReserve(x), s.CoreReserve(x), out)
    else
      && SellTerms(s.fee, v, s.AssetReserve(x), s.CoreReserve(x), c)
      && SellTerms(s.fee, c, s.CoreReserve(y), s.AssetReserve(y), out)
  }

  ghost predicate SellGoes(s: State, op: Op, c: nat, out: nat)
    requires op.Sell?
  {
    var (x, y, v) := (op.assetToSell, op.assetToBuy, op.sell);
    && x != y && v <= s.Bal(User(op.who), x) && op.minBuy <= out
    && SellLegs(s, x, y, v, c, out) && Room(s, op.to, x, y, v, c, out)
  }

  lemma SellLegsPriced(s: State, x: AssetId, y: AssetId, v: nat, c: nat, out: nat)
    requires x != y
    ensures SellLegs(s, x, y, v, c, out) <==>
      && GetSellPrice(s, x, v, y) == Ok(out)
      && if TwoPools(s, x, y) then AssetToCoreSellPrice(s, x, v) == Ok(c) else c == 0
  {
    if x == s.core {
      SellPriceExact(s.fee, v, s.CoreReserve(y), s.AssetReserve(y), out);
    } else if y == s.core {
      SellPriceExact(s.fee, v, s.AssetReserve(x), s.CoreReserve(x), out);
    } else {
      SellPriceExact(s.fee, v, s.AssetReserve(x), s.CoreReserve(x), c);
      SellPriceExact(s.fee, c, s.CoreReserve(y), s.AssetReserve(y), out);
    }
  }

  lemma SellLegsFunded(s: State, who: nat, x: AssetId, y: AssetId, v: nat, c: nat, out: nat)
    requires x != y && SellLegs(s, x, y, v, c, out) && v <= s.Bal(User(who), x)
    ensures Funded(s, who, x, y, v, c, out)
  {
  }

  lemma SellOnTerms(s: State, op: Op, c: nat, out: nat)
    requires op.Sell? && SellGoes(s, op, c, out)
    ensures Apply(s, op).Ok?
      && Exchanged(s, Apply(s, op).value, op.who, op.to, op.assetToSell, op.assetToBuy, op.sell, c, out)
  {
    var (x, y, v) := (op.assetToSell, op.assetToBuy, op.sell);
    SellLegsPriced(s, x, y, v, c, out);
    SellLegsFunded(s, op.who, x, y, v, c, out);
    TradeExchanges(s, op.who, op.to, x, y, v, c, out);
  }

  /** The terms of a sell that succeeded. */
  lemma SellHasTerms(s: State, op: Op) returns (c: nat, out: nat)
    requires op.Sell? && Apply(s, op).Ok?
    ensures SellGoes(s, op, c, out)
  {
    var (x, y, v) := (op.assetToSell, op.assetToBuy, op.sell);
    out := GetSellPrice(s, x, v, y).value;
    c := if TwoPools(s, x, y) then AssetToCoreSellPrice(s, x, v).value else 0;
    SellLegsPriced(s, x, y, v, c, out);
    TradeExchanges(s, op.who, op.to, x, y, v, c, out);
  }

  /** A sell succeeds and moves exactly these amounts if and only if these are its terms: every pool pays the
      largest amount that keeps its product, the seller has the amount sold, and the limit and all receiving
      balances allow it. */
  lemma SellAnswer(s: State, op: Op, c: nat, out: nat)
    requires op.Sell?
    ensures SellGoes(s, op, c, out) <==>
      && Apply(s, op).Ok? && (TwoPools(s, op.assetToSell, op.assetToBuy) || c == 0)
      && Exchanged(s, Apply(s, op).value, op.who, op.to, op.assetToSell, op.assetToBuy, op.sell, c, out)
  {
    if SellGoes(s, op, c, out) {
      SellOnTerms(s, op, c, out);
    } else if Apply(s, op).Ok?
              && Exchanged(s, Apply(s, op).value, op.who, op.to, op.assetToSell, op.assetToBuy, op.sell, c, out) {
      var c', out' := SellHasTerms(s, op);
      SellOnTerms(s, op, c', out');
      ExchangedOnce(s, Apply(s, op).value, op.who, op.to, op.assetToSell, op.assetToBuy, op.sell, c, out, c', out');
    }
  }

  lemma TermsLargest(fee: nat, v: nat, X: nat, Y: nat, out: nat, e: nat)
    requires SellTerms(fee, v, X, Y, out) && NetOfFee(fee, v, e)
    ensures BestPayout(X, Y, e, out)
  {
    var e': nat :| NetOfFee(fee, v, e') && e' <= U128_MAX && BestPayout(X, Y, e', out);
    NetOfFeeIs(fee, v, e);
    NetOfFeeIs(fee, v, e');
  }

  /** Pool `a` received `v` on the side of `x` and paid `out` on the other. */
  predicate Received(s: State, t: State, a: AssetId, soldSide: bool, v: nat, out: nat) {
    if soldSide then t.AssetReserve(a) == s.AssetReserve(a) + v && t.CoreReserve(a) + out == s.CoreReserve(a)
    else t.CoreReserve(a) == s.CoreReserve(a) + v && t.AssetReserve(a) + out == s.AssetReserve(a)
  }

  lemma SellReceived(s: State, t: State, who: nat, to: nat, x: AssetId, y: AssetId, v: nat, c: nat, out: nat)
    requires x != y && Exchanged(s, t, who, to, x, y, v, c, out)
    ensures x != s.core ==> Received(s, t, x, true, v, if y == s.core then out else c)
    ensures y != s.core ==> Received(s, t, y, false, if x == s.core then v else c, out)
  {
    assert t.core == s.core;
  }

  /** After a successful sell, for each pool it went through: what the pool paid is the largest payout that
      keeps the product of its reserves, given what it received less the fee. */
  lemma SellPaysLargest(s: State, op: Op, a: AssetId, v: nat, out: nat, e: nat)
    requires op.Sell? && Apply(s, op).Ok? && a != s.core && (a == op.assetToSell || a == op.assetToBuy)
    requires Received(s, Apply(s, op).value, a, a == op.assetToSell, v, out) && NetOfFee(s.fee, v, e)
    ensures
      var (X, Y) := if a == op.assetToSell then (s.AssetReserve(a), s.CoreReserve(a))
                    else (s.CoreReserve(a), s.AssetReserve(a));
      BestPayout(X, Y, e, out)
  {
    var (x, y) := (op.assetToSell, op.assetToBuy);
    var c, last := SellHasTerms(s, op);
    SellOnTerms(s, op, c, last);
    SellReceived(s, Apply(s, op).value, op.who, op.to, x, y, op.sell, c, last);
    if a == x {
      TermsLargest(s.fee, v, s.AssetReserve(a), s.CoreReserve(a), out, e);
    } else {
      TermsLargest(s.fee, v, s.CoreReserve(a), s.AssetReserve(a), out, e);
    }
  }

  // ---- Buys ----

  /** What a buy costs: `pay` in all, quoted over `q` core and with `c` core really moved if there are two pools. */
  ghost predicate BuyLegs(s: State, x: AssetId, y: AssetId, b: nat, q: nat, c: nat, pay: nat) {
    if x == s.core then q == c == 0 && BuyTerms(s.fee, b, s.CoreReserve(y), s.AssetReserve(y), pay)
    else if y == s.core then q == c == 0 && BuyTerms(s.fee, b, s.AssetReserve(x), s.CoreReserve(x), pay)
    else
      && BuyTerms(s.fee, b, s.CoreReserve(y), s.AssetReserve(y), q)
      && BuyTerms(s.fee, q, s.AssetReserve(x), s.CoreReserve(x), pay)
      && SellTerms(s.fee, pay, s.AssetReserve(x), s.CoreReserve(x), c)
  }

  ghost predicate BuyGoes(s: State, op: Op, q: nat, c: nat, pay: nat)
    requires op.Buy?
  {
    var (x, y, b) := (op.assetToSell, op.assetToBuy, op.buy);
    && x != y && pay <= s.Bal(User(op.who), x) && pay <= op.maxSell
    && BuyLegs(s, x, y, b, q, c, pay) && Room(s, op.to, x, y, pay, c, b)
  }

  lemma BuyLegsPriced(s: State, x: AssetId, y: AssetId, b: nat, q: nat, c: nat, pay: nat)
    requires x != y
    ensures BuyLegs(s, x, y, b, q, c, pay) <==>
      && GetBuyPrice(s, y, b, x) == Ok(pay)
      && if TwoPools(s, x, y) then CoreToAssetBuyPrice(s, y, b) == Ok(q) && AssetToCoreSellPrice(s, x, pay) == Ok(c)
         else q == c == 0
  {
    if x == s.core {
      BuyPriceExact(s.fee, b, s.CoreReserve(y), s.AssetReserve(y), pay);
    } else if y == s.core {
      BuyPriceExact(s.fee, b, s.AssetReserve(x), s.CoreReserve(x), pay);
    } else {
      BuyPriceExact(s.fee, b, s.CoreReserve(y), s.AssetReserve(y), q);
      BuyPriceExact(s.fee, q, s.AssetReserve(x), s.CoreReserve(x), pay);
      SellPriceExact(s.fee, pay, s.AssetReserve(x), s.CoreReserve(x), c);
    }
  }

  lemma BuyLegsFunded(s: State, who: nat, x: AssetId, y: AssetId, b: nat, q: nat, c: nat, pay: nat)
    requires x != y && BuyLegs(s, x, y, b, q, c, pay) && pay <= s.Bal(User(who), x)
    ensures Funded(s, who, x, y, pay, c, b)
  {
  }

  lemma BuyOnTerms(s: State, op: Op, q: nat, c: nat, pay: nat)
    requires op.Buy? && BuyGoes(s, op, q, c, pay)
    ensures Apply(s, op).Ok?
      && Exchanged(s, Apply(s, op).value, op.who, op.to, op.assetToSell, op.assetToBuy, pay, c, op.buy)
  {
    var (x, y, b) := (op.assetToSell, op.assetToBuy, op.buy);
    BuyLegsPriced(s, x, y, b, q, c, pay);
    BuyLegsFunded(s, op.who, x, y, b, q, c, pay);
    TradeExchanges(s, op.who, op.to, x, y, pay, c, b);
  }

  /** The terms of a buy that succeeded. */
  lemma BuyHasTerms(s: State, op: Op) returns (q: nat, c: nat, pay: nat)
    requires op.Buy? && Apply(s, op).Ok?
    ensures BuyGoes(s, op, q, c, pay)
  {
    var (x, y, b) := (op.assetToSell, op.assetToBuy, op.buy);
    pay := GetBuyPrice(s, y, b, x).value;
    q := if TwoPools(s, x, y) then CoreToAssetBuyPrice(s, y, b).value else 0;
    c := if TwoPools(s, x, y) then AssetToCoreSellPrice(s, x, pay).value else 0;
    BuyLegsPriced(s, x, y, b, q, c, pay);
    TradeExchanges(s, op.who, op.to, x, y, pay, c, b);
  }

  /** A buy succeeds and moves exactly these amounts if and only if they are its terms: the buyer pays the smallest
      charge that makes the product grow, with the fee on top, for the core quote of the smallest charge of the
      second pool if there are two, and the first of two pools pays on what the sell formula gives. */
  lemma BuyAnswer(s: State, op: Op, c: nat, pay: nat)
    requires op.Buy?
    ensures (exists q: nat :: BuyGoes(s, op, q, c, pay)) <==>
      && Apply(s, op).Ok? && (TwoPools(s, op.assetToSell, op.assetToBuy) || c == 0)
      && Exchanged(s, Apply(s, op).value, op.who, op.to, op.assetToSell, op.assetToBuy, pay, c, op.buy)
  {
    if q: nat :| BuyGoes(s, op, q, c, pay) {
      BuyOnTerms(s, op, q, c, pay);
    } else if Apply(s, op).Ok?
              && Exchanged(s, Apply(s, op).value, op.who, op.to, op.assetToSell, op.assetToBuy, pay, c, op.buy) {
      var q', c', pay' := BuyHasTerms(s, op);
      BuyOnTerms(s, op, q', c', pay');
      PaidOnce(s, Apply(s, op).value, op.who, op.to, op.assetToSell, op.assetToBuy, op.buy, c, pay, c', pay');
    }
  }

  lemma PaidOnce(s: State, t: State, who: nat, to: nat, x: AssetId, y: AssetId, b: nat, c: nat, pay: nat,
                 c': nat, pay': nat)
    requires x != y && Exchanged(s, t, who, to, x, y, pay, c, b) && Exchanged(s, t, who, to, x, y, pay', c', b)
    ensures pay == pay' && (TwoPools(s, x, y) ==> c == c')
  {
    assert t.Bal(User(who), x) + pay == s.Bal(User(who), x) && t.Bal(User(who), x) + pay' == s.Bal(User(who), x);
    if TwoPools(s, x, y) {
      assert t.Bal(PoolOf(x), s.core) + c == s.Bal(PoolOf(x), s.core);
      assert t.Bal(PoolOf(x), s.core) + c' == s.Bal(PoolOf(x), s.core);
    }
  }

  // ---- Liquidity ----

  /** Balances after `who` moved `c` core and `n` of `asset` into a pool. */
  ghost predicate PaidIn(s: State, t: State, who: Account, asset: AssetId, c: nat, n: nat) {
    forall acct, z ::
      t.Bal(acct, z) + If(acct == who && z == s.core, c) + If(acct == who && z == asset, n) ==
      s.Bal(acct, z) + If(acct == PoolOf(asset) && z == s.core, c) + If(acct == PoolOf(asset) && z == asset, n)
  }

  /** Shares after those of `who` in the pool of `asset` became `n`. */
  ghost predicate ShareSet(s: State, t: State, who: Account, asset: AssetId, n: nat) {
    forall acct, z :: t.Share(z, acct) == if acct == who && z == asset then n else s.Share(z, acct)
  }

  ghost predicate TotalSet(s: State, t: State, asset: AssetId, n: nat) {
    forall z :: t.Total(z) == if z == asset then n else s.Total(z)
  }

  /** What a deposit of `c` core costs in the other asset and what it mints: the first deposit sets the ratio;
      later ones are rounded against the provider, by less than one share and at most one unit. */
  predicate AddTerms(s: State, asset: AssetId, maxAsset: nat, c: nat, n: nat, m: nat) {
    var (C, A, L) := (s.CoreReserve(asset), s.AssetReserve(asset), s.Total(asset));
    if L == 0 || C == 0 then n == maxAsset && m == c
    else m * C <= c * L < (m + 1) * C && 0 < n && (n - 1) * C <= c * A < n * C
  }

  predicate AddRoom(s: State, who: nat, asset: AssetId, c: nat, n: nat) {
    if asset == s.core then c + n <= s.Bal(User(who), s.core) && Fits(s, PoolOf(asset), asset, c + n)
    else n <= s.Bal(User(who), asset) && Fits(s, PoolOf(asset), s.core, c) && Fits(s, PoolOf(asset), asset, n)
  }

  predicate AddGoes(s: State, op: Op, n: nat, m: nat)
    requires op.Add?
  {
    && 0 < op.maxAsset && 0 < op.coreAmount
    && op.coreAmount <= s.Bal(User(op.who), s.core) && op.maxAsset <= s.Bal(User(op.who), op.asset)
    && n <= op.maxAsset && op.minLiquidity <= m && AddRoom(s, op.who, op.asset, op.coreAmount, n)
  }

  ghost predicate Added(s: State, t: State, op: Op, n: nat, m: nat)
    requires op.Add?
  {
    && t == s.(bal := t.bal, shares := t.shares, total := t.total)
    && PaidIn(s, t, User(op.who), op.asset, op.coreAmount, n)
    && ShareSet(s, t, User(op.who), op.asset, SatAdd(s.Share(op.asset, User(op.who)), m))
    && TotalSet(s, t, op.asset, SatAdd(s.Total(op.asset), m))
  }

  lemma QuotientIs(c: nat, L: nat, C: nat, m: nat)
    requires 0 < C
    ensures m * C <= c * L < (m + 1) * C <==> m == MulDiv(c, L, C)
  {
    var r := MulDiv(c, L, C);
    MulDivBounds(c, L, C);
    assert (r + 1) * C == r * C + C;
    if m * C <= c * L < (m + 1) * C {
      DivAtLeast(c * L, C, m);
      DivAtMost(c * L, C, m);
    }
  }

  lemma AddTermsQuoted(s: State, asset: AssetId, maxAsset: nat, c: nat, n: nat, m: nat)
    ensures AddTerms(s, asset, maxAsset, c, n, m) <==> AddQuote(s, asset, maxAsset, c) == (n, m)
  {
    var (C, A, L) := (s.CoreReserve(asset), s.AssetReserve(asset), s.Total(asset));
    if L != 0 && C != 0 {
      QuotientIs(c, L, C, m);
      if 0 < n { QuotientIs(c, A, C, n - 1); }
    }
  }

  lemma PayIn(s: State, who: nat, asset: AssetId, c: nat, n: nat)
    requires 0 < c
    ensures
      var t := Transfer(s, User(who), PoolOf(asset), s.core, c);
      var u := if t.Ok? then Transfer(t.value, User(who), PoolOf(asset), asset, n) else t;
      && (u.Ok? <==> c <= s.Bal(User(who), s.core) && AddRoom(s, who, asset, c, n))
      && (u.Ok? ==> PaidIn(s, u.value, User(who), asset, c, n) && u.value == s.(bal := u.value.bal))
  {
    var pool := PoolOf(asset);
    var t := Transfer(s, User(who), pool, s.core, c);
    if t.Ok? {
      forall acct, z ensures t.value.Bal(acct, z) + If(acct == User(who) && z == s.core, c) ==
          s.Bal(acct, z) + If(acct == pool && z == s.core, c) {
        TransferMoves(s, User(who), pool, s.core, c, acct, z);
      }
      var u := Transfer(t.value, User(who), pool, asset, n);
      if u.Ok? {
        forall acct, z ensures u.value.Bal(acct, z) + If(acct == User(who) && z == asset, n) ==
            t.value.Bal(acct, z) + If(acct == pool && z == asset, n) {
          TransferMoves(t.value, User(who), pool, asset, n, acct, z);
        }
      }
    }
  }

  lemma MintSets(s: State, asset: AssetId, who: Account, m: nat)
    ensures
      var t := MintLiquidity(s, asset, who, m);
      && t == s.(shares := t.shares, total := t.total)
      && ShareSet(s, t, who, asset, SatAdd(s.Share(asset, who), m))
      && TotalSet(s, t, asset, SatAdd(s.Total(asset), m))
  {
  }

  /** There are always terms for a deposit, and only one pair of them. */
  lemma AddTermsExist(s: State, asset: AssetId, maxAsset: nat, c: nat) returns (n: nat, m: nat)
    ensures AddTerms(s, asset, maxAsset, c, n, m)
    ensures forall n', m' :: AddTerms(s, asset, maxAsset, c, n', m') ==> n' == n && m' == m
  {
    n, m := AddQuote(s, asset, maxAsset, c).0, AddQuote(s, asset, maxAsset, c).1;
    AddTermsQuoted(s, asset, maxAsset, c, n, m);
    forall n', m' | AddTerms(s, asset, maxAsset, c, n', m') ensures n' == n && m' == m {
      AddTermsQuoted(s, asset, maxAsset, c, n', m');
    }
  }

  /** Adding liquidity succeeds exactly when its terms respect the limits and the balances, and then it moves
      and mints exactly these amounts. */
  lemma AddAnswer(s: State, op: Op, n: nat, m: nat)
    requires op.Add? && AddTerms(s, op.asset, op.maxAsset, op.coreAmount, n, m)
    ensures Apply(s, op).Ok? <==> AddGoes(s, op, n, m)
    ensures Apply(s, op).Ok? ==> Added(s, Apply(s, op).value, op, n, m)
  {
    AddTermsQuoted(s, op.asset, op.maxAsset, op.coreAmount, n, m);
    AddOnQuote(s, op, n, m);
  }

  lemma AddOnQuote(s: State, op: Op, n: nat, m: nat)
    requires op.Add? && AddQuote(s, op.asset, op.maxAsset, op.coreAmount) == (n, m)
    ensures Apply(s, op).Ok? <==> AddGoes(s, op, n, m)
    ensures Apply(s, op).Ok? ==> Added(s, Apply(s, op).value, op, n, m)
  {
    var (who, pool) := (User(op.who), PoolOf(op.asset));
    if 0 < op.coreAmount { PayIn(s, op.who, op.asset, op.coreAmount, n); }
    if Apply(s, op).Ok? {
      var t := Transfer(s, who, pool, s.core, op.coreAmount).value;
      var u := Transfer(t, who, pool, op.asset, n).value;
      assert Apply(s, op).value == MintLiquidity(u, op.asset, who, m);
      MintSets(u, op.asset, who, m);
      AddedUp(s, u, op, n, m);
    }
  }

  lemma AddedUp(s: State, u: State, op: Op, n: nat, m: nat)
    requires op.Add? && u == s.(bal := u.bal) && PaidIn(s, u, User(op.who), op.asset, op.coreAmount, n)
    ensures Added(s, MintLiquidity(u, op.asset, User(op.who), m), op, n, m)
  {
    var (t, who) := (MintLiquidity(u, op.asset, User(op.who), m), User(op.who));
    assert t.bal == u.bal && u.shares == s.shares && u.total == s.total;
    assert PaidIn(s, t, who, op.asset, op.coreAmount, n) by {
      forall acct, z ensures t.Bal(acct, z) == u.Bal(acct, z) {}
    }
    assert ShareSet(s, t, who, op.asset, SatAdd(s.Share(op.asset, who), m)) by { MintSets(u, op.asset, who, m); }
    assert TotalSet(s, t, op.asset, SatAdd(s.Total(op.asset), m)) by { MintSets(u, op.asset, who, m); }
  }

  /** A share of `w` in `L` of a reserve `R`, rounded down. */
  predicate Portion(w: nat, L: nat, R: nat, out: nat) { out * L <= w * R < (out + 1) * L }

  predicate RemoveTerms(s: State, asset: AssetId, w: nat, c: nat, n: nat) {
    var (C, A, L) := (s.CoreReserve(asset), s.AssetReserve(asset), s.Total(asset));
    Portion(Min(w, L), L, C, c) && Portion(Min(w, L), L, A, n)
  }

  predicate RemoveRoom(s: State, who: nat, asset: AssetId, c: nat, n: nat) {
    if asset == s.core then c + n <= s.CoreReserve(asset) && Fits(s, User(who), asset, c + n)
    else Fits(s, User(who), s.core, c) && Fits(s, User(who), asset, n)
  }

  predicate RemoveGoes(s: State, op: Op, c: nat, n: nat)
    requires op.Remove?
  {
    && op.liquidity <= s.Share(op.asset, User(op.who)) && op.minCore <= c && op.minAsset <= n
    && RemoveRoom(s, op.who, op.asset, c, n)
  }

  /** Balances after a pool paid `who` `c` core and `n` of its asset. */
  ghost predicate PaidOut(s: State, t: State, who: Account, asset: AssetId, c: nat, n: nat) {
    forall acct, z ::
      t.Bal(acct, z) + If(acct == PoolOf(asset) && z == s.core, c) + If(acct == PoolOf(asset) && z == asset, n) ==
      s.Bal(acct, z) + If(acct == who && z == s.core, c) + If(acct == who && z == asset, n)
  }

  ghost predicate Removed(s: State, t: State, op: Op, c: nat, n: nat)
    requires op.Remove? && op.liquidity <= s.Share(op.asset, User(op.who))
  {
    && t == s.(bal := t.bal, shares := t.shares, total := t.total)
    && PaidOut(s, t, User(op.who), op.asset, c, n)
    && ShareSet(s, t, User(op.who), op.asset, s.Share(op.asset, User(op.who)) - op.liquidity)
    && TotalSet(s, t, op.asset, SatSub(s.Total(op.asset), op.liquidity))
  }

  lemma PayBack(s: State, who: nat, asset: AssetId, c: nat, n: nat)
    requires c <= s.CoreReserve(asset) && n <= s.AssetReserve(asset)
    ensures
      var t := Transfer(s, PoolOf(asset), User(who), s.core, c);
      var u := if t.Ok? then Transfer(t.value, PoolOf(asset), User(who), asset, n) else t;
      && (u.Ok? <==> RemoveRoom(s, who, asset, c, n))
      && (u.Ok? ==> PaidOut(s, u.value, User(who), asset, c, n) && u.value == s.(bal := u.value.bal))
  {
    var pool := PoolOf(asset);
    var t := Transfer(s, pool, User(who), s.core, c);
    if t.Ok? {
      forall acct, z ensures t.value.Bal(acct, z) + If(acct == pool && z == s.core, c) ==
          s.Bal(acct, z) + If(acct == User(who) && z == s.core, c) {
        TransferMoves(s, pool, User(who), s.core, c, acct, z);
      }
      var u := Transfer(t.value, pool, User(who), asset, n);
      if u.Ok? {
        forall acct, z ensures u.value.Bal(acct, z) + If(acct == pool && z == asset, n) ==
            t.value.Bal(acct, z) + If(acct == User(who) && z == asset, n) {
          TransferMoves(t.value, pool, User(who), asset, n, acct, z);
        }
      }
    }
  }

  lemma BurnSets(s: State, asset: AssetId, who: Account, w: nat)
    requires w <= s.Share(asset, who)
    ensures
      var t := BurnLiquidity(s, asset, who, w);
      && t == s.(shares := t.shares, total := t.total)
      && ShareSet(s, t, who, asset, s.Share(asset, who) - w)
      && TotalSet(s, t, asset, SatSub(s.Total(asset), w))
  {
  }

  /** A pool with liquidity has terms for every withdrawal, and only one pair of them. */
  lemma RemoveTermsQuoted(s: State, asset: AssetId, w: nat, c: nat, n: nat)
    requires 0 < s.Total(asset)
    ensures RemoveTerms(s, asset, w, c, n) <==>
      LiquidityValue(s.AssetReserve(asset), s.CoreReserve(asset), w, s.Total(asset)) == (c, n)
  {
    var L := s.Total(asset);
    QuotientIs(Min(w, L), s.CoreReserve(asset), L, c);
    QuotientIs(Min(w, L), s.AssetReserve(asset), L, n);
  }

  /** Removing liquidity succeeds exactly when the pool has liquidity, the share is there and the provider's
      portion of each reserve, rounded down, respects the limits, and then it pays exactly that. */
  lemma RemoveAnswer(s: State, op: Op, c: nat, n: nat)
    requires op.Remove? && 0 < s.Total(op.asset) && RemoveTerms(s, op.asset, op.liquidity, c, n)
    ensures Apply(s, op).Ok? <==> RemoveGoes(s, op, c, n)
    ensures Apply(s, op).Ok? ==> Removed(s, Apply(s, op).value, op, c, n)
  {
    var (who, asset, w) := (User(op.who), op.asset, op.liquidity);
    RemoveTermsQuoted(s, asset, w, c, n);
    ValueBounds(s.AssetReserve(asset), s.CoreReserve(asset), Min(w, s.Total(asset)), s.Total(asset));
    PayBack(s, op.who, asset, c, n);
    if Apply(s, op).Ok? {
      var t := Transfer(s, PoolOf(asset), who, s.core, c);
      var u := Transfer(t.value, PoolOf(asset), who, asset, n);
      BurnSets(u.value, asset, who, w);
    }
  }

  lemma EmptyPoolRefuses(s: State, op: Op)
    requires op.Remove? && s.Total(op.asset) == 0
    ensures Apply(s, op).Err?
  {
  }
}
