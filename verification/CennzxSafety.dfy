/** Whole-run safety of CENNZX: the value behind a liquidity share never falls, shares add up,
    and every provider can leave. */
module CennzxSafety {
  import opened Prelude
  import opened Arithmetic
  import opened MapSum
  import opened CennzxPricing
  import opened CennzxSpec

  datatype Pool = Pool(core: nat, asset: nat, total: nat)

  function PoolAt(s: State, a: AssetId): Pool {
    Pool(s.CoreReserve(a), s.AssetReserve(a), s.Total(a))
  }

  /** core * asset / total^2 of `q` is at least that of `p`, by cross-multiplication. */
  ghost predicate NoWorse(p: Pool, q: Pool) {
    p.core * p.asset * (q.total * q.total) <= q.core * q.asset * (p.total * p.total)
  }

  /** Liquidity is always backed by both reserves. */
  ghost predicate Backed(p: Pool) { 0 < p.total ==> 0 < p.core && 0 < p.asset }

  lemma NoWorseTransitive(p: Pool, q: Pool, r: Pool)
    requires NoWorse(p, q) && NoWorse(q, r) && 0 < q.total
    ensures NoWorse(p, r)
  {
    var (pp, qq, rr) := (p.core * p.asset, q.core * q.asset, r.core * r.asset);
    var (pt, qt, rt) := (p.total * p.total, q.total * q.total, r.total * r.total);
    MulMono(pp * qt, qq * pt, rt, rt);
    MulMono(qq * rt, rr * qt, pt, pt);
    assert pp * rt * qt == pp * qt * rt;
    assert qq * pt * rt == qq * rt * pt;
    assert rr * pt * qt == rr * qt * pt;
    assert 0 < qt;
    MulCancel(pp * rt, rr * pt, qt);
  }

  /** With the same liquidity, a pool that is no worse and holds no more of one asset holds no less
      of the other: whatever trades happened in between took nothing from it. */
  lemma NoFreeLunch(p: Pool, q: Pool)
    requires NoWorse(p, q) && p.total == q.total && 0 < p.total && Backed(p)
    ensures q.asset <= p.asset ==> p.core <= q.core
    ensures q.core <= p.core ==> p.asset <= q.asset
  {
    MulCancel(p.core * p.asset, q.core * q.asset, p.total * p.total);
    if q.asset <= p.asset {
      MulMono(q.core, q.core, q.asset, p.asset);
      MulCancel(p.core, q.core, p.asset);
    }
    if q.core <= p.core {
      MulMono(q.core, p.core, q.asset, q.asset);
      assert p.core * p.asset == p.asset * p.core && p.core * q.asset == q.asset * p.core;
      MulCancel(p.asset, q.asset, p.core);
    }
  }

  lemma TradeNoWorse(p: Pool, q: Pool)
    requires p.total == q.total && p.core * p.asset <= q.core * q.asset
    ensures NoWorse(p, q)
  {
    MulMono(p.core * p.asset, q.core * q.asset, p.total * p.total, p.total * p.total);
  }

  lemma Regroup(c: nat, a: nat, t: nat)
    ensures c * a * (t * t) * c == a * ((t * c) * (t * c))
  {
  }

  lemma Shuffle(a: nat, z: nat, l: nat)
    ensures (a * z) * (z * l) == z * a * l * z
  {
  }

  lemma Shuffle2(x: nat, c: nat, z: nat, l: nat)
    ensures (x * c) * (z * l) == z * x * l * c
  {
  }

  /** A deposit that is rounded up on the asset side and down on the minted side. */
  lemma AddNoWorse(p: Pool, c: nat, a: nat, m: nat, t: nat)
    requires 0 < p.core
    requires c * p.asset <= a * p.core && m * p.core <= c * p.total
    requires t <= p.total + m
    ensures NoWorse(p, Pool(p.core + c, p.asset + a, t))
  {
    var (C, A, L) := (p.core, p.asset, p.total);
    var (X, Y, Z) := (A + a, L + m, C + c);
    assert A * Z <= X * C by { assert A * Z == A * C + c * A; assert X * C == A * C + a * C; }
    assert Y * C <= L * Z by { assert Y * C == L * C + m * C; assert L * Z == L * C + c * L; }
    MulMono(t * C, Y * C, t * C, Y * C) by { MulMono(t, Y, C, C); }
    MulMono(Y * C, L * Z, Y * C, L * Z);
    MulMono(A, A, (t * C) * (t * C), (L * Z) * (L * Z));
    MulMono(A * Z, X * C, Z * (L * L), Z * (L * L));
    Regroup(C, A, t);
    Regroup(Z, A, L);
    assert (A * Z) * (Z * (L * L)) == Z * A * (L * L) * Z by { Shuffle(A, Z, L * L); }
    assert (X * C) * (Z * (L * L)) == Z * X * (L * L) * C by { Shuffle2(X, C, Z, L * L); }
    MulCancel(C * A * (t * t), Z * X * (L * L), C);
  }

  /** A withdrawal that is rounded down on both sides. */
  lemma RemoveNoWorse(p: Pool, w: nat, c: nat, a: nat)
    requires w <= p.total && c <= p.core && a <= p.asset
    requires c * p.total <= w * p.core && a * p.total <= w * p.asset
    ensures NoWorse(p, Pool(p.core - c, p.asset - a, p.total - w))
  {
    var L := p.total;
    var (C, A) := (p.core - c, p.asset - a);
    assert p.core * (L - w) <= C * L by {
      assert C * L == p.core * L - c * L;
      assert p.core * (L - w) == p.core * L - w * p.core;
    }
    assert p.asset * (L - w) <= A * L by {
      assert A * L == p.asset * L - a * L;
      assert p.asset * (L - w) == p.asset * L - w * p.asset;
    }
    MulMono(p.core * (L - w), C * L, p.asset * (L - w), A * L);
    assert p.core * p.asset * ((L - w) * (L - w)) == (p.core * (L - w)) * (p.asset * (L - w));
    assert C * A * (L * L) == (C * L) * (A * L);
  }

  lemma ValueBounds(assetReserve: nat, coreReserve: nat, w: nat, total: nat)
    requires 0 < total && w <= total
    ensures
      var (c, a) := LiquidityValue(assetReserve, coreReserve, w, total);
      && c * total <= w * coreReserve && a * total <= w * assetReserve
      && c <= coreReserve && a <= assetReserve
      && (w < total && 0 < coreReserve ==> c < coreReserve)
      && (w < total && 0 < assetReserve ==> a < assetReserve)
      && (w == total ==> c == coreReserve && a == assetReserve)
  {
    ShareBounds(coreReserve, w, total);
    ShareBounds(assetReserve, w, total);
  }

  lemma ShareBounds(reserve: nat, w: nat, total: nat)
    requires 0 < total && w <= total
    ensures
      var c := MulDiv(w, reserve, total);
      && c * total <= w * reserve && c <= reserve
      && (w < total && 0 < reserve ==> c < reserve)
      && (w == total ==> c == reserve)
  {
    var c := MulDiv(w, reserve, total);
    MulDivBounds(w, reserve, total);
    MulMono(w, total, reserve, reserve);
    assert total * reserve == reserve * total;
    MulCancel(c, reserve, total);
    if w < total && 0 < reserve {
      MulMono(w + 1, total, reserve, reserve);
      assert (w + 1) * reserve == w * reserve + reserve;
      assert c != reserve;
    }
    if w == total {
      DivAtLeast(w * reserve, total, reserve);
    }
  }

  // ---- One step ----

  /** The core amount a two-hop trade moves from the sold asset's pool to the bought asset's. */
  function CoreMoved(s: State, assetToSell: AssetId, sell: nat): nat {
    var r := AssetToCoreSellPrice(s, assetToSell, sell);
    if r.Ok? then r.value else 0
  }

  predicate TwoHop(s: State, op: Op) {
    (op.Buy? || op.Sell?) && op.assetToSell != s.core && op.assetToBuy != s.core
  }

  /** A two-hop buy into pool `a` brings that pool at least the fee-free price of what it takes.
      Everything else is covered by its own price formula. */
  predicate Covered(s: State, op: Op, a: AssetId) {
    op.Buy? && TwoHop(s, op) && op.assetToBuy == a && Apply(s, op).Ok? && op.buy < s.AssetReserve(a) ==>
      FeeFreePrice(op.buy, s.CoreReserve(a), s.AssetReserve(a))
        <= CoreMoved(s, op.assetToSell, GetBuyPrice(s, op.assetToBuy, op.buy, op.assetToSell).value)
  }

  lemma AddStep(s: State, op: Op, a: AssetId)
    requires op.Add? && Apply(s, op).Ok? && a != s.core && Backed(PoolAt(s, a))
    ensures
      var q := PoolAt(Apply(s, op).value, a);
      && Backed(q)
      && (0 < s.Total(a) ==> 0 < q.total && NoWorse(PoolAt(s, a), q))
  {
    var p := PoolAt(s, a);
    var (x, m) := AddQuote(s, op.asset, op.maxAsset, op.coreAmount);
    if op.asset == a {
      if 0 < p.total {
        MulDivBounds(op.coreAmount, p.asset, p.core);
        MulDivBounds(op.coreAmount, p.total, p.core);
        assert (MulDiv(op.coreAmount, p.asset, p.core) + 1) * p.core ==
          MulDiv(op.coreAmount, p.asset, p.core) * p.core + p.core;
        AddNoWorse(p, op.coreAmount, x, m, SatAdd(p.total, m));
      }
    } else {
      TradeNoWorse(p, p);
    }
  }

  lemma RemoveStep(s: State, op: Op, a: AssetId)
    requires op.Remove? && Apply(s, op).Ok? && a != s.core && Backed(PoolAt(s, a))
    requires s.Share(a, User(op.who)) <= s.Total(a)
    ensures
      var q := PoolAt(Apply(s, op).value, a);
      && Backed(q)
      && (0 < s.Total(a) ==> NoWorse(PoolAt(s, a), q))
      && (op.asset == a && q.total == 0 ==> q == Pool(0, 0, 0))
  {
    var p := PoolAt(s, a);
    if op.asset == a {
      ValueBounds(p.asset, p.core, op.liquidity, p.total);
      var (c, x) := LiquidityValue(p.asset, p.core, op.liquidity, p.total);
      RemoveNoWorse(p, op.liquidity, c, x);
    } else {
      TradeNoWorse(p, p);
    }
  }

  /** What a transfer between two accounts does to one balance. */
  lemma TransferMoves(s: State, from: Account, to: Account, asset: AssetId, amount: nat, who: Account, x: AssetId)
    requires from != to && Transfer(s, from, to, asset, amount).Ok?
    ensures
      var t := Transfer(s, from, to, asset, amount).value;
      && amount <= s.Bal(from, asset)
      && t.Bal(who, x) == (if x != asset then s.Bal(who, x)
                           else if who == to then s.Bal(who, x) + amount
                           else if who == from then s.Bal(who, x) - amount
                           else s.Bal(who, x))
      && t.total == s.total && t.shares == s.shares && t.core == s.core && t.fee == s.fee
  {
  }

  lemma SingleHopReserves(s: State, who: nat, to: nat, pool: AssetId, x: AssetId, y: AssetId, sell: nat, buy: nat,
                          a: AssetId, z: AssetId)
    requires x != y
    requires SingleHop(s, User(who), User(to), PoolOf(pool), x, y, sell, buy).Ok?
    ensures
      var t := SingleHop(s, User(who), User(to), PoolOf(pool), x, y, sell, buy).value;
      && t.total == s.total && t.shares == s.shares && t.core == s.core
      && (pool == a ==> buy <= s.Bal(PoolOf(a), y))
      && t.Bal(PoolOf(a), z) == (if pool == a && z == x then s.Bal(PoolOf(a), z) + sell
                                 else if pool == a && z == y then s.Bal(PoolOf(a), z) - buy
                                 else s.Bal(PoolOf(a), z))
  {
    TransferMoves(s, User(who), PoolOf(pool), x, sell, PoolOf(a), z);
    TransferMoves(s, User(who), PoolOf(pool), x, sell, PoolOf(a), y);
    var u := Transfer(s, User(who), PoolOf(pool), x, sell).value;
    TransferMoves(u, PoolOf(pool), User(to), y, buy, PoolOf(a), z);
  }

  lemma DoubleHopReserves(s: State, who: nat, to: nat, x: AssetId, y: AssetId, sell: nat, c: nat, buy: nat,
                          a: AssetId, z: AssetId)
    requires x != y && x != s.core && y != s.core
    requires DoubleHop(s, User(who), User(to), x, y, sell, c, buy).Ok?
    ensures
      var t := DoubleHop(s, User(who), User(to), x, y, sell, c, buy).value;
      && t.total == s.total && t.shares == s.shares && t.core == s.core
      && (a == x ==> c <= s.Bal(PoolOf(x), s.core)) && (a == y ==> buy <= s.Bal(PoolOf(y), y))
      && t.Bal(PoolOf(a), z) == (if a == x && z == x then s.Bal(PoolOf(a), z) + sell
                                 else if a == x && z == s.core then s.Bal(PoolOf(a), z) - c
                                 else if a == y && z == s.core then s.Bal(PoolOf(a), z) + c
                                 else if a == y && z == y then s.Bal(PoolOf(a), z) - buy
                                 else s.Bal(PoolOf(a), z))
  {
    var u := Transfer(s, User(who), PoolOf(x), x, sell).value;
    TransferMoves(s, User(who), PoolOf(x), x, sell, PoolOf(a), z);
    TransferMoves(s, User(who), PoolOf(x), x, sell, PoolOf(x), s.core);
    TransferMoves(s, User(who), PoolOf(x), x, sell, PoolOf(y), y);
    var v := Transfer(u, PoolOf(x), PoolOf(y), s.core, c).value;
    TransferMoves(u, PoolOf(x), PoolOf(y), s.core, c, PoolOf(a), z);
    TransferMoves(u, PoolOf(x), PoolOf(y), s.core, c, PoolOf(y), y);
    TransferMoves(v, PoolOf(y), User(to), y, buy, PoolOf(a), z);
  }

  /** Where a trade leaves the reserves of the two pools it may touch. */
  lemma TradeReserves(s: State, who: nat, to: nat, x: AssetId, y: AssetId, sell: nat, buy: nat, a: AssetId)
    requires x != y && a != s.core
    requires ExecuteTrade(s, User(who), User(to), x, y, sell, buy).Ok?
    ensures
      var t := ExecuteTrade(s, User(who), User(to), x, y, sell, buy).value;
      var (C, A) := (s.CoreReserve(a), s.AssetReserve(a));
      var moved := CoreMoved(s, x, sell);
      && t.total == s.total && t.shares == s.shares && t.core == s.core
      && (x == a && y == s.core ==> t.AssetReserve(a) == A + sell && t.CoreReserve(a) == C - buy)
      && (y == a && x == s.core ==> t.CoreReserve(a) == C + sell && t.AssetReserve(a) == A - buy)
      && (x == a && y != s.core ==> t.AssetReserve(a) == A + sell && t.CoreReserve(a) == C - moved)
      && (y == a && x != s.core ==> t.CoreReserve(a) == C + moved && t.AssetReserve(a) == A - buy)
      && (x != a && y != a ==> t.CoreReserve(a) == C && t.AssetReserve(a) == A)
  {
    if x == s.core || y == s.core {
      var pool := if y == s.core then x else y;
      SingleHopReserves(s, who, to, pool, x, y, sell, buy, a, a);
      SingleHopReserves(s, who, to, pool, x, y, sell, buy, a, s.core);
    } else {
      DoubleHopReserves(s, who, to, x, y, sell, CoreMoved(s, x, sell), buy, a, a);
      DoubleHopReserves(s, who, to, x, y, sell, CoreMoved(s, x, sell), buy, a, s.core);
    }
  }

  /** The product of the reserves does not fall when `a` is sold into its pool, or bought out of it. */
  lemma SellProduct(s: State, x: AssetId, y: AssetId, v: nat, buy: nat, a: AssetId, q: Pool)
    requires x != y && a != s.core && GetSellPrice(s, x, v, y) == Ok(buy)
    requires x == a ==>
      q.asset == s.AssetReserve(a) + v && q.core == s.CoreReserve(a) - (if y == s.core then buy else CoreMoved(s, x, v))
    requires y == a ==>
      q.core == s.CoreReserve(a) + (if x == s.core then v else CoreMoved(s, x, v)) && q.asset == s.AssetReserve(a) - buy
    requires x != a && y != a ==> q.core == s.CoreReserve(a) && q.asset == s.AssetReserve(a)
    ensures s.CoreReserve(a) * s.AssetReserve(a) <= q.core * q.asset
  {
    if x == a {
      SellPriceKeepsProduct(s.fee, v, s.AssetReserve(a), s.CoreReserve(a));
    } else if y == a {
      SellPriceKeepsProduct(s.fee, if x == s.core then v else CoreMoved(s, x, v), s.CoreReserve(a), s.AssetReserve(a));
    }
  }

  lemma SellStep(s: State, op: Op, a: AssetId)
    requires op.Sell? && Apply(s, op).Ok? && a != s.core && Backed(PoolAt(s, a))
    ensures
      var q := PoolAt(Apply(s, op).value, a);
      Backed(q) && q.total == s.Total(a) && NoWorse(PoolAt(s, a), q)
  {
    var (x, y, v, p) := (op.assetToSell, op.assetToBuy, op.sell, PoolAt(s, a));
    var buy := GetSellPrice(s, x, v, y).value;
    TradeReserves(s, op.who, op.to, x, y, v, buy, a);
    var q := PoolAt(Apply(s, op).value, a);
    SellProduct(s, x, y, v, buy, a, q);
    TradeNoWorse(p, q);
  }

  /** Every pool of a buy is kept by its own price formula, except the second pool of a two-hop
      buy, which is kept exactly when the core moved covers the fee-free price. */
  lemma BuyStep(s: State, op: Op, a: AssetId)
    requires op.Buy? && Apply(s, op).Ok? && a != s.core && Backed(PoolAt(s, a))
    ensures
      var q := PoolAt(Apply(s, op).value, a);
      && Backed(q) && q.total == s.Total(a)
      && (0 < s.Total(a) ==> (NoWorse(PoolAt(s, a), q) <==> Covered(s, op, a)))
  {
    if TwoHop(s, op) && op.assetToBuy == a {
      BuyIntoStep(s, op);
    } else {
      BuyOtherStep(s, op, a);
    }
  }

  /** The trade behind a successful buy. */
  lemma BuyIsTrade(s: State, op: Op)
    requires op.Buy? && Apply(s, op).Ok?
    ensures op.assetToSell != op.assetToBuy
    ensures
      var sell := GetBuyPrice(s, op.assetToBuy, op.buy, op.assetToSell);
      && sell.Ok?
      && Apply(s, op) == ExecuteTrade(s, User(op.who), User(op.to), op.assetToSell, op.assetToBuy, sell.value, op.buy)
  {
  }

  /** Both legs of a two-hop buy were priced. */
  lemma TwoHopPriced(s: State, op: Op)
    requires op.Buy? && TwoHop(s, op) && Apply(s, op).Ok?
    ensures
      var sell := GetBuyPrice(s, op.assetToBuy, op.buy, op.assetToSell);
      var quote := CoreToAssetBuyPrice(s, op.assetToBuy, op.buy);
      && quote.Ok? && sell.Ok?
      && AssetToCoreBuyPrice(s, op.assetToSell, quote.value) == sell
      && AssetToCoreSellPrice(s, op.assetToSell, sell.value).Ok?
  {
    BuyIsTrade(s, op);
  }

  lemma BuyIntoStep(s: State, op: Op)
    requires op.Buy? && TwoHop(s, op) && Apply(s, op).Ok? && Backed(PoolAt(s, op.assetToBuy))
    ensures
      var (p, q) := (PoolAt(s, op.assetToBuy), PoolAt(Apply(s, op).value, op.assetToBuy));
      && Backed(q) && q.total == p.total
      && (0 < p.total ==> (NoWorse(p, q) <==> Covered(s, op, op.assetToBuy)))
  {
    var (x, a, b, p) := (op.assetToSell, op.assetToBuy, op.buy, PoolAt(s, op.assetToBuy));
    var sell := GetBuyPrice(s, a, b, x).value;
    var c := CoreMoved(s, x, sell);
    BuyIsTrade(s, op);
    TwoHopPriced(s, op);
    TradeReserves(s, op.who, op.to, x, a, sell, b, a);
    assert PoolAt(Apply(s, op).value, a) == Pool(p.core + c, p.asset - b, p.total);
    BuyPriceKeepsProduct(s.fee, b, p.core, p.asset);
    if 0 < p.total {
      ReceiveNoWorse(p, c, b);
    }
  }

  lemma ReceiveNoWorse(p: Pool, c: nat, b: nat)
    requires b < p.asset && 0 < p.total
    ensures NoWorse(p, Pool(p.core + c, p.asset - b, p.total)) <==> FeeFreePrice(b, p.core, p.asset) <= c
  {
    FeeFreePriceExact(b, p.core, p.asset, c);
    SameTotal(p, Pool(p.core + c, p.asset - b, p.total));
  }

  lemma SameTotal(p: Pool, q: Pool)
    requires p.total == q.total && 0 < p.total
    ensures NoWorse(p, q) <==> p.core * p.asset <= q.core * q.asset
  {
    if p.core * p.asset <= q.core * q.asset {
      TradeNoWorse(p, q);
    } else if NoWorse(p, q) {
      MulCancel(p.core * p.asset, q.core * q.asset, p.total * p.total);
    }
  }

  lemma BuyOtherStep(s: State, op: Op, a: AssetId)
    requires op.Buy? && Apply(s, op).Ok? && a != s.core && Backed(PoolAt(s, a))
    requires !(TwoHop(s, op) && op.assetToBuy == a)
    ensures
      var q := PoolAt(Apply(s, op).value, a);
      Backed(q) && q.total == s.Total(a) && NoWorse(PoolAt(s, a), q)
  {
    var (x, y, b, p) := (op.assetToSell, op.assetToBuy, op.buy, PoolAt(s, a));
    var sell := GetBuyPrice(s, y, b, x).value;
    BuyIsTrade(s, op);
    TradeReserves(s, op.who, op.to, x, y, sell, b, a);
    var q := PoolAt(Apply(s, op).value, a);
    if TwoHop(s, op) && x == a {
      TwoHopPriced(s, op);
      SellPriceKeepsProduct(s.fee, sell, p.asset, p.core);
      assert q == Pool(p.core - CoreMoved(s, x, sell), p.asset + sell, p.total);
      TradeKept(p, q);
    } else if x == a {
      BuyPriceKeepsProduct(s.fee, b, p.asset, p.core);
      assert q == Pool(p.core - b, p.asset + sell, p.total);
      TradeKept(p, q);
    } else if y == a {
      BuyPriceKeepsProduct(s.fee, b, p.core, p.asset);
      assert q == Pool(p.core + sell, p.asset - b, p.total);
      TradeKept(p, q);
    } else {
      assert q == p;
      TradeNoWorse(p, p);
    }
  }

  lemma TradeKept(p: Pool, q: Pool)
    requires p.total == q.total && p.core * p.asset <= q.asset * q.core
    ensures NoWorse(p, q)
  {
    TradeNoWorse(p, q);
  }

  lemma DonateStep(s: State, op: Op, a: AssetId)
    requires op.Donate? && Apply(s, op).Ok? && a != s.core && Backed(PoolAt(s, a))
    ensures
      var q := PoolAt(Apply(s, op).value, a);
      Backed(q) && q.total == s.Total(a) && NoWorse(PoolAt(s, a), q)
  {
    var (p, q) := (PoolAt(s, a), PoolAt(Apply(s, op).value, a));
    MulMono(p.core, q.core, p.asset, q.asset);
    TradeNoWorse(p, q);
  }

  // ---- Shares ----

  ghost predicate TotalIsSum(s: State, a: AssetId) { s.Total(a) == Sum(s.Shares(a)) }

  lemma ShareAtMostTotal(s: State, a: AssetId, who: Account)
    requires TotalIsSum(s, a)
    ensures s.Share(a, who) <= s.Total(a)
  {
    SumAtLeast(s.Shares(a), who);
  }

  /** Minting keeps the books exactly when the total does not saturate, or one provider owns all. */
  lemma MintKeepsSum(s: State, asset: AssetId, who: Account, increase: nat, a: AssetId)
    requires TotalIsSum(s, asset) && TotalIsSum(s, a) && s.Total(asset) <= U128_MAX
    ensures TotalIsSum(MintLiquidity(s, asset, who, increase), asset)
       <==> s.Total(asset) + increase <= U128_MAX || s.Share(asset, who) == s.Total(asset)
    ensures a != asset ==> TotalIsSum(MintLiquidity(s, asset, who, increase), a)
  {
    SumUpdate(s.Shares(asset), who, SatAdd(s.Share(asset, who), increase));
    ShareAtMostTotal(s, asset, who);
  }

  lemma BurnKeepsSum(s: State, asset: AssetId, who: Account, decrease: nat, a: AssetId)
    requires TotalIsSum(s, asset) && TotalIsSum(s, a)
    ensures TotalIsSum(BurnLiquidity(s, asset, who, decrease), a)
  {
    SumUpdate(s.Shares(asset), who, s.Share(asset, who) - Min(decrease, s.Share(asset, who)));
    ShareAtMostTotal(s, asset, who);
  }

  // ---- Runs ----

  /** The reachable-state invariant: shares add up to the total, and liquidity is backed. */
  ghost predicate Inv(s: State) {
    && (forall a :: TotalIsSum(s, a) && s.Total(a) <= U128_MAX)
    && (forall a :: a != s.core ==> Backed(PoolAt(s, a)))
  }

  /** The liquidity minted by `op` fits the u128 total of its pool. */
  predicate Fits(s: State, op: Op) {
    op.Add? ==> s.Total(op.asset) + AddQuote(s, op.asset, op.maxAsset, op.coreAmount).1 <= U128_MAX
  }

  /** What a step keeps at asset `a`. */
  ghost predicate StepOk(s: State, op: Op, a: AssetId) {
    var t := Step(s, op);
    && TotalIsSum(t, a) && t.Total(a) <= U128_MAX
    && (a != s.core ==> Backed(PoolAt(t, a)))
    && (a != s.core && 0 < s.Total(a) && Covered(s, op, a) ==> NoWorse(PoolAt(s, a), PoolAt(t, a)))
  }

  /** One step keeps the invariant, and every step other than one that under-covers a pool keeps
      the value behind its shares. */
  lemma StepSafe(s: State, op: Op, a: AssetId)
    requires Inv(s) && Fits(s, op)
    ensures StepOk(s, op, a) && Step(s, op).core == s.core
  {
    StepBooks(s, op, a);
    if a != s.core {
      if Apply(s, op).Err? || op.SetFeeRate? {
        assert PoolAt(Step(s, op), a) == PoolAt(s, a);
        TradeNoWorse(PoolAt(s, a), PoolAt(s, a));
      } else {
        StepPool(s, op, a);
      }
    }
  }

  lemma StepKeepsInv(s: State, op: Op)
    requires Inv(s) && Fits(s, op)
    ensures Inv(Step(s, op)) && Step(s, op).core == s.core
  {
    forall a ensures StepOk(s, op, a) && Step(s, op).core == s.core { StepSafe(s, op, a); }
    assert StepOk(s, op, s.core);
    forall a ensures TotalIsSum(Step(s, op), a) && Step(s, op).Total(a) <= U128_MAX { assert StepOk(s, op, a); }
    forall a | a != s.core ensures Backed(PoolAt(Step(s, op), a)) { assert StepOk(s, op, a); }
  }

  /** Only adds and removes touch the liquidity books. */
  lemma StepShape(s: State, op: Op)
    requires Apply(s, op).Ok?
    ensures
      var t := Apply(s, op).value;
      && t.core == s.core
      && (op.Add? ==>
            var u := MintLiquidity(s, op.asset, User(op.who), AddQuote(s, op.asset, op.maxAsset, op.coreAmount).1);
            t.total == u.total && t.shares == u.shares)
      && (op.Remove? ==>
            var u := BurnLiquidity(s, op.asset, User(op.who), op.liquidity);
            t.total == u.total && t.shares == u.shares)
      && (!op.Add? && !op.Remove? ==> t.total == s.total && t.shares == s.shares)
  {
    if op.Buy? {
      var sell := GetBuyPrice(s, op.assetToBuy, op.buy, op.assetToSell).value;
      TradeReserves(s, op.who, op.to, op.assetToSell, op.assetToBuy, sell, op.buy, s.core + 1);
    } else if op.Sell? {
      var buy := GetSellPrice(s, op.assetToSell, op.sell, op.assetToBuy).value;
      TradeReserves(s, op.who, op.to, op.assetToSell, op.assetToBuy, op.sell, buy, s.core + 1);
    }
  }

  lemma StepBooks(s: State, op: Op, a: AssetId)
    requires Inv(s) && Fits(s, op)
    ensures TotalIsSum(Step(s, op), a) && Step(s, op).Total(a) <= U128_MAX && Step(s, op).core == s.core
  {
    assert TotalIsSum(s, a);
    if Apply(s, op).Ok? {
      StepShape(s, op);
      if op.Add? {
        assert TotalIsSum(s, op.asset);
        var (x, m) := AddQuote(s, op.asset, op.maxAsset, op.coreAmount);
        MintKeepsSum(s, op.asset, User(op.who), m, a);
      } else if op.Remove? {
        assert TotalIsSum(s, op.asset);
        BurnKeepsSum(s, op.asset, User(op.who), op.liquidity, a);
      }
    }
  }

  lemma StepPool(s: State, op: Op, a: AssetId)
    requires Inv(s) && a != s.core && Apply(s, op).Ok? && !op.SetFeeRate?
    ensures Backed(PoolAt(Apply(s, op).value, a))
    ensures 0 < s.Total(a) && Covered(s, op, a) ==> NoWorse(PoolAt(s, a), PoolAt(Apply(s, op).value, a))
  {
    assert TotalIsSum(s, a) && Backed(PoolAt(s, a));
    match op
    case Add(_, _, _, _, _) => AddStep(s, op, a);
    case Remove(who, _, _, _, _) => ShareAtMostTotal(s, a, User(who)); RemoveStep(s, op, a);
    case Buy(_, _, _, _, _, _) => BuyStep(s, op, a);
    case Sell(_, _, _, _, _, _) => SellStep(s, op, a);
    case Donate(_, _, _, _) => DonateStep(s, op, a);
  }

  /** Nothing in the run saturates a total. */
  predicate AllFit(s: State, ops: seq<Op>)
    decreases |ops|
  {
    ops == [] || (Fits(s, ops[0]) && AllFit(Step(s, ops[0]), ops[1..]))
  }

  /** Pool `a` keeps some liquidity after every step, and every two-hop buy into it is covered. */
  predicate StaysOpen(s: State, ops: seq<Op>, a: AssetId)
    decreases |ops|
  {
    0 < s.Total(a) && (ops == [] || (Covered(s, ops[0], a) && StaysOpen(Step(s, ops[0]), ops[1..], a)))
  }

  lemma {:induction false} RunKeepsInv(s: State, ops: seq<Op>)
    requires Inv(s) && AllFit(s, ops)
    ensures Inv(Run(s, ops)) && Run(s, ops).core == s.core
    decreases |ops|
  {
    if ops != [] {
      StepKeepsInv(s, ops[0]);
      RunKeepsInv(Step(s, ops[0]), ops[1..]);
    }
  }

  /** Over any run, the reserves product per squared share of a pool that stays open never falls. */
  lemma {:induction false} ValuePerShareNeverFalls(s: State, ops: seq<Op>, a: AssetId)
    requires Inv(s) && AllFit(s, ops) && a != s.core && StaysOpen(s, ops, a)
    ensures NoWorse(PoolAt(s, a), PoolAt(Run(s, ops), a))
    ensures 0 < Run(s, ops).CoreReserve(a) && 0 < Run(s, ops).AssetReserve(a)
    decreases |ops|
  {
    if ops == [] {
      TradeNoWorse(PoolAt(s, a), PoolAt(s, a));
      assert Backed(PoolAt(s, a));
    } else {
      var t := Step(s, ops[0]);
      StepKeepsInv(s, ops[0]);
      StepSafe(s, ops[0], a);
      ValuePerShareNeverFalls(t, ops[1..], a);
      NoWorseTransitive(PoolAt(s, a), PoolAt(t, a), PoolAt(Run(s, ops), a));
    }
  }
}
