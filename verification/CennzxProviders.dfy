/** Liquidity providers: leaving in any order, and the add-then-remove round trip. */
module CennzxProviders {
  import opened Prelude
  import opened Arithmetic
  import opened MapSum
  import opened CennzxSpec
  import opened CennzxSafety

  /** Users in `order` withdraw their whole share one after the other. */
  function WithdrawAll(s: State, asset: AssetId, order: seq<nat>): Outcome
    decreases |order|
  {
    if order == [] then Ok(s)
    else
      var who := User(order[0]);
      var t := RemoveLiquidity(s, who, asset, s.Share(asset, who), 0, 0);
      if t.Err? then t else WithdrawAll(t.value, asset, order[1..])
  }

  /** Paying the whole of both reserves to any one of these users overflows no balance. */
  predicate Payable(s: State, asset: AssetId, order: seq<nat>) {
    forall i :: 0 <= i < |order| ==>
      && s.Bal(User(order[i]), s.core) + s.CoreReserve(asset) <= U128_MAX
      && s.Bal(User(order[i]), asset) + s.AssetReserve(asset) <= U128_MAX
  }

  /** Every share belongs to a user in `order`. */
  predicate OwnedBy(s: State, asset: AssetId, order: seq<nat>) {
    forall who :: who in s.Shares(asset) && 0 < s.Shares(asset)[who] ==> who.User? && who.id in order
  }

  /** Both transfers of a withdrawal, as seen from the pool and from user `v`. */
  lemma PayOut(s: State, asset: AssetId, u: nat, c: nat, x: nat, v: nat)
    requires asset != s.core && c <= s.CoreReserve(asset) && x <= s.AssetReserve(asset)
    requires s.Bal(User(u), s.core) + c <= U128_MAX && s.Bal(User(u), asset) + x <= U128_MAX
    ensures
      var t := Transfer(s, PoolOf(asset), User(u), s.core, c);
      && t.Ok?
      && var r := Transfer(t.value, PoolOf(asset), User(u), asset, x);
         && r.Ok?
         && r.value.total == s.total && r.value.shares == s.shares && r.value.core == s.core
         && r.value.CoreReserve(asset) == s.CoreReserve(asset) - c
         && r.value.AssetReserve(asset) == s.AssetReserve(asset) - x
         && r.value.Bal(User(v), s.core) == s.Bal(User(v), s.core) + (if u == v then c else 0)
         && r.value.Bal(User(v), asset) == s.Bal(User(v), asset) + (if u == v then x else 0)
  {
    var t := Transfer(s, PoolOf(asset), User(u), s.core, c);
    assert t.Ok?;
    TransferMoves(s, PoolOf(asset), User(u), s.core, c, PoolOf(asset), s.core);
    TransferMoves(s, PoolOf(asset), User(u), s.core, c, PoolOf(asset), asset);
    TransferMoves(s, PoolOf(asset), User(u), s.core, c, User(u), asset);
    TransferMoves(s, PoolOf(asset), User(u), s.core, c, User(v), s.core);
    TransferMoves(s, PoolOf(asset), User(u), s.core, c, User(v), asset);
    assert Transfer(t.value, PoolOf(asset), User(u), asset, x).Ok?;
    TransferMoves(t.value, PoolOf(asset), User(u), asset, x, PoolOf(asset), s.core);
    TransferMoves(t.value, PoolOf(asset), User(u), asset, x, PoolOf(asset), asset);
    TransferMoves(t.value, PoolOf(asset), User(u), asset, x, User(v), s.core);
    TransferMoves(t.value, PoolOf(asset), User(u), asset, x, User(v), asset);
  }

  /** One full withdrawal, as seen from the pool and from the other users. */
  lemma LeaveStep(s: State, asset: AssetId, u: nat, v: nat)
    requires asset != s.core && 0 < s.Total(asset) && s.Share(asset, User(u)) <= s.Total(asset)
    requires s.Bal(User(u), s.core) + s.CoreReserve(asset) <= U128_MAX
    requires s.Bal(User(u), asset) + s.AssetReserve(asset) <= U128_MAX
    ensures
      var r := RemoveLiquidity(s, User(u), asset, s.Share(asset, User(u)), 0, 0);
      && r.Ok?
      && var t := r.value;
         && t.core == s.core
         && t.Shares(asset) == s.Shares(asset)[User(u) := 0]
         && t.Total(asset) == s.Total(asset) - s.Share(asset, User(u))
         && t.CoreReserve(asset) <= s.CoreReserve(asset) && t.AssetReserve(asset) <= s.AssetReserve(asset)
         && (t.Total(asset) == 0 ==> t.CoreReserve(asset) == 0 && t.AssetReserve(asset) == 0)
         && (v != u ==>
             t.Bal(User(v), s.core) == s.Bal(User(v), s.core) && t.Bal(User(v), asset) == s.Bal(User(v), asset))
         && t.Bal(User(u), s.core) + t.CoreReserve(asset) == s.Bal(User(u), s.core) + s.CoreReserve(asset)
         && t.Bal(User(u), asset) + t.AssetReserve(asset) == s.Bal(User(u), asset) + s.AssetReserve(asset)
  {
    var w := s.Share(asset, User(u));
    ValueBounds(s.AssetReserve(asset), s.CoreReserve(asset), w, s.Total(asset));
    var (c, x) := LiquidityValue(s.AssetReserve(asset), s.CoreReserve(asset), w, s.Total(asset));
    PayOut(s, asset, u, c, x, v);
  }

  /** All providers can withdraw in full, in any order, without a reserve falling short; when the
      last of them has left, the pool is exactly empty. */
  lemma {:induction false} EveryoneCanLeave(s: State, asset: AssetId, order: seq<nat>)
    requires asset != s.core && TotalIsSum(s, asset) && 0 < s.Total(asset)
    requires Distinct(order) && OwnedBy(s, asset, order) && Payable(s, asset, order)
    requires forall i :: 0 <= i < |order| ==> 0 < s.Share(asset, User(order[i]))
    ensures
      var r := WithdrawAll(s, asset, order);
      r.Ok? && r.value.CoreReserve(asset) == 0 && r.value.AssetReserve(asset) == 0 && r.value.Total(asset) == 0
    decreases |order|
  {
    if order == [] {
      SumZero(s.Shares(asset));
    } else {
      var u := order[0];
      var rest := order[1..];
      ShareAtMostTotal(s, asset, User(u));
      LeaveStep(s, asset, u, u);
      var t := RemoveLiquidity(s, User(u), asset, s.Share(asset, User(u)), 0, 0).value;
      SumUpdate(s.Shares(asset), User(u), 0);
      forall i | 0 <= i < |rest|
        ensures 0 < t.Share(asset, User(rest[i]))
        ensures t.Bal(User(rest[i]), t.core) + t.CoreReserve(asset) <= U128_MAX
        ensures t.Bal(User(rest[i]), asset) + t.AssetReserve(asset) <= U128_MAX
      {
        assert rest[i] == order[i + 1] && order[i + 1] != order[0];
        LeaveStep(s, asset, u, rest[i]);
      }
      assert OwnedBy(t, asset, rest) by {
        forall who | who in t.Shares(asset) && 0 < t.Shares(asset)[who] ensures who.User? && who.id in rest {
          assert who in s.Shares(asset) && who != User(u);
        }
      }
      if rest == [] {
        SumZero(t.Shares(asset));
      } else {
        assert 0 < t.Total(asset) by {
          assert 0 < t.Share(asset, User(rest[0]));
          SumAtLeast(t.Shares(asset), User(rest[0]));
        }
        EveryoneCanLeave(t, asset, rest);
      }
    }
  }

  /** The core asset's own pool is the exception: both of its reserves are one balance, out of which
      a withdrawal is paid twice. Any provider can withdraw `w` of the liquidity exactly when twice
      its value is there. */
  lemma CorePoolPaysTwice(s: State, u: nat, w: nat)
    requires 0 < s.Total(s.core) && w <= s.Share(s.core, User(u)) <= s.Total(s.core)
    requires s.Bal(User(u), s.core) + s.CoreReserve(s.core) <= U128_MAX
    ensures RemoveLiquidity(s, User(u), s.core, w, 0, 0).Ok? <==>
      2 * MulDiv(w, s.CoreReserve(s.core), s.Total(s.core)) <= s.CoreReserve(s.core)
  {
    ValueBounds(s.AssetReserve(s.core), s.CoreReserve(s.core), w, s.Total(s.core));
  }

  /** So a sole provider can leave exactly when the pool is empty. */
  lemma CorePoolTrapsItsProvider(s: State, u: nat)
    requires 0 < s.Total(s.core) == s.Share(s.core, User(u))
    requires s.Bal(User(u), s.core) + s.CoreReserve(s.core) <= U128_MAX
    ensures RemoveLiquidity(s, User(u), s.core, s.Total(s.core), 0, 0).Ok? <==> s.CoreReserve(s.core) == 0
  {
    CorePoolPaysTwice(s, u, s.Total(s.core));
    ValueBounds(s.AssetReserve(s.core), s.CoreReserve(s.core), s.Total(s.core), s.Total(s.core));
  }

  const CORE_OWNER: State := State(0, 3000, map[(User(7), 0) := 100], map[], map[])

  /** A user who adds 10 and 10 of the core asset to its own pool cannot take them out again. */
  lemma CorePoolTrapped()
    ensures
      var r := AddLiquidity(CORE_OWNER, User(7), 0, 0, 10, 10);
      && r.Ok? && r.value.Share(0, User(7)) == r.value.Total(0) == 10 && r.value.CoreReserve(0) == 20
      && RemoveLiquidity(r.value, User(7), 0, 10, 0, 0).Err?
  {
    var s := CORE_OWNER;
    var t := Transfer(s, User(7), PoolOf(0), 0, 10).value;
    assert t.Bal(User(7), 0) == 90 && t.Bal(PoolOf(0), 0) == 10;
    var u := Transfer(t, User(7), PoolOf(0), 0, 10).value;
    assert u.Bal(User(7), 0) == 80 && u.Bal(PoolOf(0), 0) == 20;
    var v := AddLiquidity(s, User(7), 0, 0, 10, 10).value;
    assert v == MintLiquidity(u, 0, User(7), 10);
    CorePoolTrapsItsProvider(v, 7);
  }

  /** What liquidity just bought is worth: no more than was paid for it. */
  lemma BoughtLiquidityValue(s: State, u: nat, asset: AssetId, minLiquidity: nat, maxAsset: nat, coreAmount: nat)
    requires asset != s.core && 0 < s.Total(asset) && 0 < s.CoreReserve(asset)
    requires AddLiquidity(s, User(u), asset, minLiquidity, maxAsset, coreAmount).Ok?
    requires s.Total(asset) + AddQuote(s, asset, maxAsset, coreAmount).1 <= U128_MAX
    ensures
      var (paid, minted) := AddQuote(s, asset, maxAsset, coreAmount);
      var t := AddLiquidity(s, User(u), asset, minLiquidity, maxAsset, coreAmount).value;
      var (coreBack, assetBack) := LiquidityValue(t.AssetReserve(asset), t.CoreReserve(asset), minted, t.Total(asset));
      coreBack <= coreAmount && assetBack <= paid
  {
    var (C, A, L) := (s.CoreReserve(asset), s.AssetReserve(asset), s.Total(asset));
    var (a, m) := AddQuote(s, asset, maxAsset, coreAmount);
    var t := AddLiquidity(s, User(u), asset, minLiquidity, maxAsset, coreAmount).value;
    assert t.CoreReserve(asset) == C + coreAmount && t.AssetReserve(asset) == A + a && t.Total(asset) == L + m;
    MulDivBounds(coreAmount, A, C);
    MulDivBounds(coreAmount, L, C);
    BackAtMost(C, L, coreAmount, m);
    assert m * A <= a * L by { CrossBound(C, A, L, coreAmount, a, m); }
    BackAtMost(A, L, a, m);
  }

  /** Where adding to a live pool leaves the pool and the user. */
  lemma AddLeaves(s: State, u: nat, asset: AssetId, minLiquidity: nat, maxAsset: nat, coreAmount: nat)
    requires asset != s.core && AddLiquidity(s, User(u), asset, minLiquidity, maxAsset, coreAmount).Ok?
    ensures
      var (paid, minted) := AddQuote(s, asset, maxAsset, coreAmount);
      var t := AddLiquidity(s, User(u), asset, minLiquidity, maxAsset, coreAmount).value;
      && t.core == s.core && t.Share(asset, User(u)) == SatAdd(s.Share(asset, User(u)), minted)
      && t.Total(asset) == SatAdd(s.Total(asset), minted)
      && t.Bal(User(u), s.core) + coreAmount == s.Bal(User(u), s.core)
      && t.Bal(User(u), asset) + paid == s.Bal(User(u), asset)
  {
    var (paid, minted) := AddQuote(s, asset, maxAsset, coreAmount);
    var t := Transfer(s, User(u), PoolOf(asset), s.core, coreAmount).value;
    TransferMoves(s, User(u), PoolOf(asset), s.core, coreAmount, User(u), s.core);
    TransferMoves(s, User(u), PoolOf(asset), s.core, coreAmount, User(u), asset);
    TransferMoves(t, User(u), PoolOf(asset), asset, paid, User(u), s.core);
    TransferMoves(t, User(u), PoolOf(asset), asset, paid, User(u), asset);
  }

  /** Adding to a live pool and removing the new liquidity at once succeeds, and leaves the user with
      no more of either asset than before. */
  lemma AddThenRemoveNeverGains(s: State, u: nat, asset: AssetId, minLiquidity: nat, maxAsset: nat, coreAmount: nat)
    requires asset != s.core && 0 < s.Total(asset) && 0 < s.CoreReserve(asset)
    requires s.Bal(User(u), s.core) <= U128_MAX && s.Bal(User(u), asset) <= U128_MAX
    requires AddLiquidity(s, User(u), asset, minLiquidity, maxAsset, coreAmount).Ok?
    requires s.Total(asset) + AddQuote(s, asset, maxAsset, coreAmount).1 <= U128_MAX
    ensures
      var minted := AddQuote(s, asset, maxAsset, coreAmount).1;
      var t := AddLiquidity(s, User(u), asset, minLiquidity, maxAsset, coreAmount).value;
      var r := RemoveLiquidity(t, User(u), asset, minted, 0, 0);
      && r.Ok?
      && r.value.Bal(User(u), s.core) <= s.Bal(User(u), s.core)
      && r.value.Bal(User(u), asset) <= s.Bal(User(u), asset)
  {
    var minted := AddQuote(s, asset, maxAsset, coreAmount).1;
    var t := AddLiquidity(s, User(u), asset, minLiquidity, maxAsset, coreAmount).value;
    AddLeaves(s, u, asset, minLiquidity, maxAsset, coreAmount);
    BoughtLiquidityValue(s, u, asset, minLiquidity, maxAsset, coreAmount);
    var (coreBack, assetBack) := LiquidityValue(t.AssetReserve(asset), t.CoreReserve(asset), minted, t.Total(asset));
    ValueBounds(t.AssetReserve(asset), t.CoreReserve(asset), minted, t.Total(asset));
    PayOut(t, asset, u, coreBack, assetBack, u);
  }

  lemma CrossBound(C: nat, A: nat, L: nat, c: nat, a: nat, m: nat)
    requires 0 < C && m * C <= c * L && a == MulDiv(c, A, C) + 1
    ensures m * A <= a * L
  {
    MulDivBounds(c, A, C);
    assert c * A <= a * C by { assert a * C == MulDiv(c, A, C) * C + C; }
    MulMono(m * C, c * L, A, A);
    MulMono(c * A, a * C, L, L);
    assert m * A * C == m * C * A && c * L * A == c * A * L && a * L * C == a * C * L;
    MulCancel(m * A, a * L, C);
  }

  lemma BackAtMost(R: nat, L: nat, paid: nat, m: nat)
    requires 0 < L && m * R <= paid * L
    ensures MulDiv(m, R + paid, L + m) <= paid
  {
    assert m * (R + paid) == m * R + m * paid;
    assert (paid + 1) * (L + m) == paid * L + paid * m + L + m;
    DivAtMost(m * (R + paid), L + m, paid);
  }
}
