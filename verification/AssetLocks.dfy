/** Balance locks of the generic-asset pallet. */
module AssetLocks {
  import opened Prelude

  datatype WithdrawReason = TransactionPayment | Transfer | Reserve | Fee | Tip

  /** The stored, simplified reasons. */
  datatype Reasons = FeeOnly | Misc | All

  datatype Lock = Lock(id: nat, amount: nat, reasons: Reasons)

  function FromWithdraw(r: set<WithdrawReason>): Reasons {
    if r == {TransactionPayment} then FeeOnly
    else if TransactionPayment in r then All
    else Misc
  }

  function Join(a: Reasons, b: Reasons): Reasons { if a == b then a else All }

  /** `ensure_can_withdraw`: a non-zero withdrawal must respect every lock whose reasons overlap. */
  predicate CanWithdraw(locks: seq<Lock>, amount: nat, reasons: set<WithdrawReason>, newBalance: nat) {
    || amount == 0
    || locks == []
    || forall i :: 0 <= i < |locks| ==>
         || newBalance >= locks[i].amount
         || (FromWithdraw(reasons) != All && locks[i].reasons != All && locks[i].reasons != FromWithdraw(reasons))
  }

  /** Walk the locks, giving the first one with `id` to `combine` together with the new lock and
      dropping later ones; what is left of the new lock is appended. */
  function Walk(locks: seq<Lock>, id: nat, pending: Option<Lock>, combine: (Lock, Lock) -> Lock): seq<Lock> {
    if locks == [] then (if pending.Some? then [pending.value] else [])
    else if locks[0].id != id then [locks[0]] + Walk(locks[1..], id, pending, combine)
    else if pending.Some? then [combine(locks[0], pending.value)] + Walk(locks[1..], id, None, combine)
    else Walk(locks[1..], id, None, combine)
  }

  const REPLACE: (Lock, Lock) -> Lock := (before: Lock, new': Lock) => new'

  const WIDEN: (Lock, Lock) -> Lock :=
    (before: Lock, new': Lock) => Lock(before.id, Max(before.amount, new'.amount), Join(before.reasons, new'.reasons))

  function SetLock(locks: seq<Lock>, id: nat, amount: nat, reasons: set<WithdrawReason>): seq<Lock> {
    Walk(locks, id, Some(Lock(id, amount, FromWithdraw(reasons))), REPLACE)
  }

  function ExtendLock(locks: seq<Lock>, id: nat, amount: nat, reasons: set<WithdrawReason>): seq<Lock> {
    Walk(locks, id, Some(Lock(id, amount, FromWithdraw(reasons))), WIDEN)
  }

  function RemoveLock(locks: seq<Lock>, id: nat): seq<Lock> {
    if locks == [] then []
    else (if locks[0].id != id then [locks[0]] else []) + RemoveLock(locks[1..], id)
  }

  // ---- What the reasons mean ----

  /** The kinds of withdrawal a lock stops. */
  datatype Purpose = PayingFees | AnythingElse

  function Covers(r: Reasons): set<Purpose> {
    match r
    case FeeOnly => {PayingFees}
    case Misc => {AnythingElse}
    case All => {PayingFees, AnythingElse}
  }

  function PurposesOf(r: set<WithdrawReason>): set<Purpose> {
    (if TransactionPayment in r then {PayingFees} else {})
    + (if r - {TransactionPayment} != {} then {AnythingElse} else {})
  }

  /** The simplification keeps the purposes of every withdrawal that states one, and joining two
      reasons covers exactly what either covers. */
  lemma ReasonsMeaning(r: set<WithdrawReason>, a: Reasons, b: Reasons)
    ensures r != {} ==> Covers(FromWithdraw(r)) == PurposesOf(r)
    ensures Covers(Join(a, b)) == Covers(a) + Covers(b)
  {
    if r != {} && TransactionPayment in r && r != {TransactionPayment} {
      assert r - {TransactionPayment} != {};
    }
    if r != {} && TransactionPayment !in r {
      assert r - {TransactionPayment} == r;
    }
  }

  predicate Applies(l: Lock, r: Reasons) { Covers(l.reasons) * Covers(r) != {} }

  /** The largest balance an applicable lock insists on. */
  function Required(locks: seq<Lock>, r: Reasons): nat {
    if locks == [] then 0
    else Max(if Applies(locks[0], r) then locks[0].amount else 0, Required(locks[1..], r))
  }

  lemma AppliesMeans(l: Lock, r: Reasons)
    ensures Applies(l, r) <==> !(r != All && l.reasons != All && l.reasons != r)
  {
    var common := Covers(l.reasons) * Covers(r);
    if l.reasons == All || r == All || l.reasons == r {
      assert PayingFees in common || AnythingElse in common;
    }
  }

  lemma {:induction false} RequiredAtMost(locks: seq<Lock>, r: Reasons, b: nat)
    ensures Required(locks, r) <= b <==> forall i :: 0 <= i < |locks| && Applies(locks[i], r) ==> locks[i].amount <= b
  {
    if locks != [] {
      var rest := locks[1..];
      RequiredAtMost(rest, r, b);
      if Required(locks, r) <= b {
        forall i | 0 <= i < |locks| && Applies(locks[i], r) ensures locks[i].amount <= b {
          if 0 < i { assert locks[i] == rest[i - 1]; }
        }
      }
      if forall i :: 0 <= i < |locks| && Applies(locks[i], r) ==> locks[i].amount <= b {
        forall i | 0 <= i < |rest| && Applies(rest[i], r) ensures rest[i].amount <= b {
          assert rest[i] == locks[i + 1];
        }
      }
    }
  }

  /** A non-zero withdrawal is allowed exactly when the balance left is at least the largest
      amount an applicable lock requires. */
  lemma WithdrawalRule(locks: seq<Lock>, amount: nat, reasons: set<WithdrawReason>, newBalance: nat)
    ensures CanWithdraw(locks, amount, reasons, newBalance)
       <==> amount == 0 || Required(locks, FromWithdraw(reasons)) <= newBalance
  {
    var r := FromWithdraw(reasons);
    RequiredAtMost(locks, r, newBalance);
    forall i | 0 <= i < |locks|
      ensures Applies(locks[i], r) <==> !(r != All && locks[i].reasons != All && locks[i].reasons != r)
    {
      AppliesMeans(locks[i], r);
    }
  }

  // ---- Editing the list ----

  predicate UniqueIds(locks: seq<Lock>) {
    forall i, j :: 0 <= i < j < |locks| ==> locks[i].id != locks[j].id
  }

  predicate Absent(locks: seq<Lock>, id: nat) { forall k :: 0 <= k < |locks| ==> locks[k].id != id }

  lemma {:induction false} WalkFound(locks: seq<Lock>, id: nat, new': Lock, combine: (Lock, Lock) -> Lock, k: nat)
    requires UniqueIds(locks) && k < |locks| && locks[k].id == id
    ensures Walk(locks, id, Some(new'), combine) == locks[k := combine(locks[k], new')]
  {
    var t := locks[1..];
    assert forall i :: 0 <= i < |t| ==> t[i] == locks[i + 1];
    assert locks == [locks[0]] + t;
    if k == 0 {
      WalkAbsent(t, id, None, combine);
    } else {
      WalkFound(t, id, new', combine, k - 1);
    }
  }

  lemma {:induction false} WalkAbsent(locks: seq<Lock>, id: nat, pending: Option<Lock>, combine: (Lock, Lock) -> Lock)
    requires Absent(locks, id)
    ensures Walk(locks, id, pending, combine) == locks + (if pending.Some? then [pending.value] else [])
  {
    if locks != [] {
      assert forall i :: 0 <= i < |locks[1..]| ==> locks[1..][i] == locks[i + 1];
      WalkAbsent(locks[1..], id, pending, combine);
    }
  }

  /** Setting a lock replaces the one with its id where it stands, or appends it: ids stay unique
      and the other locks keep their places. */
  lemma SetLockEffect(locks: seq<Lock>, id: nat, amount: nat, reasons: set<WithdrawReason>)
    requires UniqueIds(locks)
    ensures
      var r := SetLock(locks, id, amount, reasons);
      var new' := Lock(id, amount, FromWithdraw(reasons));
      && UniqueIds(r)
      && (Absent(locks, id) ==> r == locks + [new'])
      && forall k :: 0 <= k < |locks| && locks[k].id == id ==> r == locks[k := new']
  {
    var new' := Lock(id, amount, FromWithdraw(reasons));
    if Absent(locks, id) {
      WalkAbsent(locks, id, Some(new'), REPLACE);
    } else {
      forall k | 0 <= k < |locks| && locks[k].id == id
        ensures SetLock(locks, id, amount, reasons) == locks[k := new']
      {
        WalkFound(locks, id, new', REPLACE, k);
      }
    }
  }

  /** Extending a lock leaves the one with its id where it stands, with the larger of both amounts and covering what
      either covers, or appends the new one; the other locks are untouched. */
  lemma ExtendLockEffect(locks: seq<Lock>, id: nat, amount: nat, reasons: set<WithdrawReason>)
    requires UniqueIds(locks)
    ensures
      var after := ExtendLock(locks, id, amount, reasons);
      var new' := Lock(id, amount, FromWithdraw(reasons));
      && UniqueIds(after)
      && (Absent(locks, id) ==> after == locks + [new'])
      && (forall k :: 0 <= k < |locks| && locks[k].id == id ==>
            && |after| == |locks| && after == locks[k := after[k]] && after[k].id == id
            && after[k].amount == (if locks[k].amount <= amount then amount else locks[k].amount)
            && Covers(after[k].reasons) == Covers(locks[k].reasons) + Covers(new'.reasons))
  {
    var new' := Lock(id, amount, FromWithdraw(reasons));
    var after := ExtendLock(locks, id, amount, reasons);
    if Absent(locks, id) {
      WalkAbsent(locks, id, Some(new'), WIDEN);
    } else {
      forall k | 0 <= k < |locks| && locks[k].id == id
        ensures after == locks[k := WIDEN(locks[k], new')]
          && Covers(WIDEN(locks[k], new').reasons) == Covers(locks[k].reasons) + Covers(new'.reasons)
      {
        WalkFound(locks, id, new', WIDEN, k);
        ReasonsMeaning({}, locks[k].reasons, new'.reasons);
      }
    }
  }

  /** For every reason the extended list requires at least what the old list and the new lock do,
      so no refused withdrawal becomes allowed. */
  lemma ExtendNeverLoosens(locks: seq<Lock>, id: nat, amount: nat, reasons: set<WithdrawReason>, r: Reasons)
    requires UniqueIds(locks)
    ensures
      var after := ExtendLock(locks, id, amount, reasons);
      && Required(locks, r) <= Required(after, r)
      && (Applies(Lock(id, amount, FromWithdraw(reasons)), r) ==> amount <= Required(after, r))
  {
    var new' := Lock(id, amount, FromWithdraw(reasons));
    var after := ExtendLock(locks, id, amount, reasons);
    ExtendLockEffect(locks, id, amount, reasons);
    if Absent(locks, id) {
      AppendTightens(locks, new', r);
    } else {
      var k :| 0 <= k < |locks| && locks[k].id == id;
      WalkFound(locks, id, new', WIDEN, k);
      WidenApplies(locks[k], new', r);
      ReplaceTightens(locks, k, WIDEN(locks[k], new'), r);
      RequiredAtMost(after, r, Required(after, r));
      assert after[k] == WIDEN(locks[k], new');
    }
  }

  lemma AppendTightens(locks: seq<Lock>, l: Lock, r: Reasons)
    ensures Required(locks, r) <= Required(locks + [l], r)
    ensures Applies(l, r) ==> l.amount <= Required(locks + [l], r)
  {
    var after := locks + [l];
    RequiredAtMost(after, r, Required(after, r));
    assert after[|locks|] == l;
    assert forall i :: 0 <= i < |locks| ==> after[i] == locks[i];
    RequiredAtMost(locks, r, Required(after, r));
  }

  lemma ReplaceTightens(locks: seq<Lock>, k: nat, l: Lock, r: Reasons)
    requires k < |locks| && locks[k].amount <= l.amount && (Applies(locks[k], r) ==> Applies(l, r))
    ensures Required(locks, r) <= Required(locks[k := l], r)
  {
    var after := locks[k := l];
    RequiredAtMost(after, r, Required(after, r));
    assert after[k] == l;
    assert forall i :: 0 <= i < |locks| && i != k ==> after[i] == locks[i];
    RequiredAtMost(locks, r, Required(after, r));
  }

  lemma {:induction false} RemoveAbsent(locks: seq<Lock>, id: nat)
    requires Absent(locks, id)
    ensures RemoveLock(locks, id) == locks
  {
    if locks != [] {
      assert forall i :: 0 <= i < |locks[1..]| ==> locks[1..][i] == locks[i + 1];
      RemoveAbsent(locks[1..], id);
    }
  }

  lemma {:induction false} RemoveFound(locks: seq<Lock>, id: nat, k: nat)
    requires UniqueIds(locks) && k < |locks| && locks[k].id == id
    ensures RemoveLock(locks, id) == locks[..k] + locks[k + 1..]
  {
    var t := locks[1..];
    assert forall i :: 0 <= i < |t| ==> t[i] == locks[i + 1];
    if k == 0 {
      RemoveAbsent(t, id);
    } else {
      RemoveFound(t, id, k - 1);
      assert locks[..k] == [locks[0]] + t[..k - 1] && locks[k + 1..] == t[k..];
    }
  }

  /** Removing a lock takes out that lock alone, and ids stay unique. */
  lemma RemoveLockEffect(locks: seq<Lock>, id: nat)
    requires UniqueIds(locks)
    ensures UniqueIds(RemoveLock(locks, id)) && Absent(RemoveLock(locks, id), id)
    ensures Absent(locks, id) ==> RemoveLock(locks, id) == locks
    ensures forall k :: 0 <= k < |locks| && locks[k].id == id ==> RemoveLock(locks, id) == locks[..k] + locks[k + 1..]
  {
    if Absent(locks, id) {
      RemoveAbsent(locks, id);
    } else {
      forall k | 0 <= k < |locks| && locks[k].id == id ensures RemoveLock(locks, id) == locks[..k] + locks[k + 1..] {
        RemoveFound(locks, id, k);
      }
    }
  }

  lemma WidenApplies(before: Lock, new': Lock, r: Reasons)
    ensures Applies(before, r) || Applies(new', r) ==> Applies(WIDEN(before, new'), r)
  {
    ReasonsMeaning({}, before.reasons, new'.reasons);
    var c := Covers(WIDEN(before, new').reasons);
    assert c == Covers(before.reasons) + Covers(new'.reasons);
    assert c * Covers(r) == Covers(before.reasons) * Covers(r) + Covers(new'.reasons) * Covers(r);
  }
}
