/** The FAsset token's operations: construction, the balance mutation behind every transfer
    leg, transferFrom, and delegate; each stamps its checkpoints with the index it is given. */
module FAsset {
  import opened Errors
  import opened Delegations
  import opened Views
  import opened Ledgers
  import opened Cascades
  import opened Invariant

  /** The configuration fixed at construction. */
  ghost predicate SameConfig(L: Ledger, r: Ledger)
  {
    r.precision == L.precision && r.limit == L.limit && r.genesis == L.genesis
  }

  /** Prepare a mutation at idx touching accounts a and b: move the clock forward and give
      both accounts a log. */
  function Open(L: Ledger, idx: nat, a: Account, b: Account): (r: Ledger)
    requires L.clock <= idx
  {
    Touch(Touch(L.(clock := idx), a), b)
  }

  /** Opening keeps the invariant and changes no read; reads at the new clock are the reads
      at the old one. */
  lemma OpenSpec(L: Ledger, idx: nat, a: Account, b: Account)
    requires Valid(L) && L.clock <= idx
    ensures Valid(Open(L, idx, a, b)) && SameConfig(L, Open(L, idx, a, b))
    ensures Open(L, idx, a, b).clock == idx
    ensures a < |Open(L, idx, a, b).logs| && b < |Open(L, idx, a, b).logs| && |L.logs| <= |Open(L, idx, a, b).logs|
    ensures forall x :: BalanceOf(Open(L, idx, a, b), x) == BalanceOf(L, x)
    ensures forall x :: DelegatesOf(Open(L, idx, a, b), x) == DelegatesOf(L, x)
    ensures forall x, i :: BalanceOfAt(Open(L, idx, a, b), x, i) == BalanceOfAt(L, x, i)
    ensures forall x, i :: DelegatesOfAt(Open(L, idx, a, b), x, i) == DelegatesOfAt(L, x, i)
    ensures forall x, i :: VotePowerAt(Open(L, idx, a, b), x, i) == VotePowerAt(L, x, i)
  {
    var L0 := L.(clock := idx);
    AdvanceValid(L, idx);
    TouchValid(L0, a);
    TouchValid(Touch(L0, a), b);
    forall x, i
      ensures BalanceOf(Open(L, idx, a, b), x) == BalanceOf(L, x)
      ensures DelegatesOf(Open(L, idx, a, b), x) == DelegatesOf(L, x)
      ensures BalanceOfAt(Open(L, idx, a, b), x, i) == BalanceOfAt(L, x, i)
      ensures DelegatesOfAt(Open(L, idx, a, b), x, i) == DelegatesOfAt(L, x, i)
      ensures VotePowerAt(Open(L, idx, a, b), x, i) == VotePowerAt(L, x, i)
    {
      TouchReads(L0, a, x, i);
      TouchReads(Touch(L0, a), b, x, i);
    }
  }

  // ---------------------------------------------------------------------------------------
  // Operations

  /** creditDebit: apply a signed balance change to account a at index idx and cascade it into
      vote power. Refused when idx is older than the latest mutation, or when a debit would
      make the balance negative; a refusal changes nothing. */
  function CreditDebit(L: Ledger, a: Account, delta: int, idx: nat): (r: Result<Ledger>)
    requires Valid(L)
    ensures r.Ok? <==> L.clock <= idx && BalanceOf(L, a) + delta >= 0
    ensures r.Err? ==> r.error == if idx < L.clock then NonMonotonicIndex else InsufficientBalance
    ensures r.Ok? ==> Valid(r.value) && SameConfig(L, r.value) && r.value.clock == idx
  {
    if idx < L.clock then Err(NonMonotonicIndex)
    else
      var L1 := Open(L, idx, a, a);
      OpenSpec(L, idx, a, a);
      if BalanceOf(L1, a) + delta < 0 then Err(InsufficientBalance)
      else
        ShiftValid(L1, a, delta);
        Ok(Shift(L1, a, delta))
  }

  /** transferFrom: debit `from` and credit `to` by amount, both at idx; refused as a whole
      when the debit is. */
  function TransferFrom(L: Ledger, from: Account, to: Account, amount: nat, idx: nat): (r: Result<Ledger>)
    requires Valid(L)
    ensures r.Ok? <==> L.clock <= idx && BalanceOf(L, from) >= amount
    ensures r.Err? ==> r.error == if idx < L.clock then NonMonotonicIndex else InsufficientBalance
    ensures r.Ok? ==> Valid(r.value) && SameConfig(L, r.value) && r.value.clock == idx
  {
    match CreditDebit(L, from, -(amount as int), idx)
    case Err(e) => Err(e)
    case Ok(L1) =>
      ReadsNonneg(L1, to, idx);
      ReadsAfterClock(L1, to, idx);
      CreditDebit(L1, to, amount, idx)
  }

  /** delegate: `from` grants `to` bp basis points of its vote power from index idx on,
      replacing any earlier grant to `to` (0 removes it). Refused when idx is older than the
      latest mutation, when `to` would be a new delegatee of a full list, or when the grants
      would exceed 100%. */
  function Delegate(L: Ledger, from: Account, to: Account, bp: nat, idx: nat): (r: Result<Ledger>)
    requires Valid(L)
    ensures r.Ok? <==> L.clock <= idx
                       && !(bp > 0 && !Present(DelegatesOf(L, from), to) && |DelegatesOf(L, from)| >= L.limit)
                       && Total(DelegatesOf(L, from)) - SharesTo(DelegatesOf(L, from), to) + bp <= Scale(L)
    ensures r.Err? ==> r.error == if idx < L.clock then NonMonotonicIndex
                                  else if bp > 0 && !Present(DelegatesOf(L, from), to) && |DelegatesOf(L, from)| >= L.limit
                                  then DelegationLimitExceeded
                                  else DelegationPercentageExceeded
    ensures r.Ok? ==> Valid(r.value) && SameConfig(L, r.value) && r.value.clock == idx
  {
    if idx < L.clock then Err(NonMonotonicIndex)
    else
      var L1 := Open(L, idx, from, to);
      OpenSpec(L, idx, from, to);
      assert AccountWF(L1, from);
      match SetShare(DelegatesOf(L1, from), to, bp, Scale(L1), L1.limit)
      case Err(e) => Err(e)
      case Ok(list) =>
        DelegateValid(L1, from, to, list);
        Ok(Regrant(L1, from, to, list))
  }

  /** The registry's new list meets RegrantValid's requirements. */
  lemma DelegateValid(L: Ledger, from: Account, to: Account, list: seq<Delegation>)
    requires Valid(L) && from < |L.logs| && to < |L.logs| && Distinct(DelegatesOf(L, from))
    requires SetShare(DelegatesOf(L, from), to, SharesTo(list, to), Scale(L), L.limit) == Ok(list)
    ensures Valid(Regrant(L, from, to, list))
  {
    var v := ViewAt(L, L.clock);
    assert WellFormed(DelegatesOf(L, from), |L.logs|, Scale(L), L.limit) by {
      CurrentReads(L, from);
      assert Coherent(v, Scale(L), L.limit);
      assert EntryCoherent(v, from, Scale(L), L.limit);
    }
    RegrantValid(L, from, to, list);
  }

  /** The constructor: a ledger created at index idx whose deployer dev is minted devFee. */
  function Create(precision: nat, limit: nat, devFee: nat, dev: Account, idx: nat): (r: Ledger)
    ensures Valid(r) && r.precision == precision && r.limit == limit
    ensures r.genesis == idx && r.clock == idx
  {
    var L := Ledger(precision, limit, idx, idx, []);
    EmptyValid(precision, limit, idx);
    var L1 := Open(L, idx, dev, dev);
    OpenSpec(L, idx, dev, dev);
    ShiftValid(L1, dev, devFee);
    Shift(L1, dev, devFee)
  }

  // ---------------------------------------------------------------------------------------
  // What the operations do to the reads

  /** How much of one unit of a's balance counts as x's vote power, scaled: what a keeps if x
      is a itself, plus what a grants x. */
  function Weight(L: Ledger, a: Account, x: Account): int
  {
    (if x == a then Scale(L) - Total(DelegatesOf(L, a)) else 0) + SharesTo(DelegatesOf(L, a), x)
  }

  /** A successful creditDebit moves a's balance by delta and every account's current vote
      power by delta times its weight from a; delegations stay as they were. */
  lemma CreditDebitNow(L: Ledger, a: Account, delta: int, idx: nat, r: Ledger, x: Account)
    requires Valid(L) && CreditDebit(L, a, delta, idx) == Ok(r)
    ensures BalanceOf(r, x) == BalanceOf(L, x) + (if x == a then delta else 0)
    ensures DelegatesOf(r, x) == DelegatesOf(L, x)
    ensures VotePowerAt(r, x, idx) == VotePowerAt(L, x, L.clock) + delta * Weight(L, a, x)
  {
    var L1 := Open(L, idx, a, a);
    OpenSpec(L, idx, a, a);
    assert r == Shift(L1, a, delta);
    ShiftSteps(L1, a, delta, DelegatesOf(L1, a), delta * (Scale(L1) - Total(DelegatesOf(L1, a))));
    ShiftNow(L1, a, delta);
    ShiftEffect(L, L1, a, delta, r, x);
  }

  /** CreditDebitNow on the opened ledger. */
  lemma ShiftEffect(L: Ledger, L1: Ledger, a: Account, delta: int, r: Ledger, x: Account)
    requires Valid(L) && Valid(L1) && Valid(r) && SameConfig(L, L1) && L.clock <= L1.clock
    requires SameShape(L1, r) && a < |L1.logs|
    requires ViewAt(r, L1.clock) == Credit(ViewAt(L1, L1.clock), a, delta, Scale(L1))
    requires forall y :: BalanceOf(L1, y) == BalanceOf(L, y)
    requires forall y :: DelegatesOf(L1, y) == DelegatesOf(L, y)
    requires forall y, i :: VotePowerAt(L1, y, i) == VotePowerAt(L, y, i)
    ensures BalanceOf(r, x) == BalanceOf(L, x) + (if x == a then delta else 0)
    ensures DelegatesOf(r, x) == DelegatesOf(L, x)
    ensures VotePowerAt(r, x, L1.clock) == VotePowerAt(L, x, L.clock) + delta * Weight(L, a, x)
  {
    var c := L1.clock;
    var v := ViewAt(L1, c);
    var list := DelegatesOf(L, a);
    ReadsAfterClock(L, x, c);
    CurrentReads(L1, a);
    if x < |L1.logs| {
      CreditAt(v, a, delta, Scale(L1), x);
      CurrentReads(r, x);
      CurrentReads(L1, x);
      ReadsAreView(r, x, c);
      ReadsAreView(L1, x, c);
      Distribute(delta, if x == a then Scale(L) - Total(list) else 0, SharesTo(list, x));
    } else {
      assert AccountWF(L1, a);
      SharesToAbsent(list, x);
    }
  }

  /** A successful creditDebit at idx changes nothing recorded before idx. */
  lemma CreditDebitPast(L: Ledger, a: Account, delta: int, idx: nat, r: Ledger, x: Account, i: nat)
    requires Valid(L) && CreditDebit(L, a, delta, idx) == Ok(r) && i < idx
    ensures BalanceOfAt(r, x, i) == BalanceOfAt(L, x, i)
    ensures DelegatesOfAt(r, x, i) == DelegatesOfAt(L, x, i)
    ensures VotePowerAt(r, x, i) == VotePowerAt(L, x, i)
  {
    var L1 := Open(L, idx, a, a);
    OpenSpec(L, idx, a, a);
    assert r == Shift(L1, a, delta);
    ShiftPast(L1, a, delta, i);
    PastReads(L, L1, r, x, i);
  }

  /** Reads at index i agree when the snapshots at i do. */
  lemma PastReads(L: Ledger, L1: Ledger, r: Ledger, x: Account, i: nat)
    requires SameShape(L1, r) && ViewAt(r, i) == ViewAt(L1, i)
    requires BalanceOfAt(L1, x, i) == BalanceOfAt(L, x, i)
    requires DelegatesOfAt(L1, x, i) == DelegatesOfAt(L, x, i)
    requires VotePowerAt(L1, x, i) == VotePowerAt(L, x, i)
    ensures BalanceOfAt(r, x, i) == BalanceOfAt(L, x, i)
    ensures DelegatesOfAt(r, x, i) == DelegatesOfAt(L, x, i)
    ensures VotePowerAt(r, x, i) == VotePowerAt(L, x, i)
  {
    if x < |r.logs| {
      ReadsAreView(r, x, i);
      ReadsAreView(L1, x, i);
    }
  }

  /** The vote power a delegation of bp basis points from `from` to `to` moves, given what
      `from` grants `to` now: from's balance times the change in percentage. */
  function MovedPower(L: Ledger, from: Account, to: Account, bp: int): int
  {
    BalanceOf(L, from) * (bp - SharesTo(DelegatesOf(L, from), to))
  }

  /** A successful transferFrom moves amount from `from`'s balance to `to`'s, and every
      account's current vote power by amount times the difference of its weights from the two;
      delegations stay as they were. */
  lemma TransferNow(L: Ledger, from: Account, to: Account, amount: nat, idx: nat, r: Ledger, x: Account)
    requires Valid(L) && TransferFrom(L, from, to, amount, idx) == Ok(r)
    ensures BalanceOf(r, x) == BalanceOf(L, x) - (if x == from then amount else 0) + (if x == to then amount else 0)
    ensures DelegatesOf(r, x) == DelegatesOf(L, x)
    ensures VotePowerAt(r, x, idx)
            == VotePowerAt(L, x, L.clock) - amount * Weight(L, from, x) + amount * Weight(L, to, x)
  {
    var L1 := CreditDebit(L, from, -(amount as int), idx).value;
    var w1, w2 := Weight(L, from, x), Weight(L, to, x);
    assert L1.clock == idx && Valid(L1) && CreditDebit(L1, to, amount, idx) == Ok(r);
    assert VotePowerAt(L1, x, idx) == VotePowerAt(L, x, L.clock) - amount * w1
        && BalanceOf(L1, x) == BalanceOf(L, x) - (if x == from then amount else 0)
        && DelegatesOf(L1, x) == DelegatesOf(L, x) by {
      CreditDebitNow(L, from, -(amount as int), idx, L1, x);
      NegMul(amount, w1);
    }
    assert Weight(L1, to, x) == w2 by {
      CreditDebitNow(L, from, -(amount as int), idx, L1, to);
    }
    CreditDebitNow(L1, to, amount, idx, r, x);
  }

  lemma NegMul(a: int, w: int)
    ensures -a * w == -(a * w)
  {
  }

  /** A successful transferFrom at idx changes nothing recorded before idx. */
  lemma TransferPast(L: Ledger, from: Account, to: Account, amount: nat, idx: nat, r: Ledger, x: Account, i: nat)
    requires Valid(L) && TransferFrom(L, from, to, amount, idx) == Ok(r) && i < idx
    ensures BalanceOfAt(r, x, i) == BalanceOfAt(L, x, i)
    ensures DelegatesOfAt(r, x, i) == DelegatesOfAt(L, x, i)
    ensures VotePowerAt(r, x, i) == VotePowerAt(L, x, i)
  {
    var L1 := CreditDebit(L, from, -(amount as int), idx).value;
    CreditDebitPast(L, from, -(amount as int), idx, L1, x, i);
    CreditDebitPast(L1, to, amount, idx, r, x, i);
  }

  /** A successful delegate replaces what `from` grants `to` by bp, leaves its other grants and
      every balance alone, and moves `from`'s balance times the change in percentage from
      `from`'s current vote power to `to`'s. */
  lemma DelegateNow(L: Ledger, from: Account, to: Account, bp: nat, idx: nat, r: Ledger, x: Account)
    requires Valid(L) && Delegate(L, from, to, bp, idx) == Ok(r)
    ensures BalanceOf(r, x) == BalanceOf(L, x)
    ensures x != from ==> DelegatesOf(r, x) == DelegatesOf(L, x)
    ensures SharesTo(DelegatesOf(r, from), to) == bp
    ensures x != to ==> SharesTo(DelegatesOf(r, from), x) == SharesTo(DelegatesOf(L, from), x)
    ensures Total(DelegatesOf(r, from)) == Total(DelegatesOf(L, from)) - SharesTo(DelegatesOf(L, from), to) + bp
    ensures |DelegatesOf(r, from)| <= |DelegatesOf(L, from)| + 1
    ensures VotePowerAt(r, x, idx)
            == VotePowerAt(L, x, L.clock)
               + (if x == to then MovedPower(L, from, to, bp) else 0) - (if x == from then MovedPower(L, from, to, bp) else 0)
  {
    var L1 := Open(L, idx, from, to);
    OpenSpec(L, idx, from, to);
    assert AccountWF(L1, from);
    var D := DelegatesOf(L, from);
    var list := SetShare(DelegatesOf(L1, from), to, bp, Scale(L1), L1.limit).value;
    assert SharesTo(list, to) == bp && (x != to ==> SharesTo(list, x) == SharesTo(D, x))
        && Total(list) == Total(D) - SharesTo(D, to) + bp && |list| <= |D| + 1;
    var m := MovedPower(L, from, to, bp);
    assert BalanceOf(r, x) == BalanceOf(L, x)
        && DelegatesOf(r, x) == (if x == from then list else DelegatesOf(L, x))
        && VotePowerAt(r, x, idx) == VotePowerAt(L, x, L.clock) + (if x == to then m else 0) - (if x == from then m else 0) by {
      assert r == Regrant(L1, from, to, list);
      RegrantNow(L1, from, to, list);
      RegrantEffect(L, L1, from, to, list, r, x);
    }
    assert DelegatesOf(r, from) == list by {
      assert r == Regrant(L1, from, to, list);
      RegrantNow(L1, from, to, list);
      RegrantEffect(L, L1, from, to, list, r, from);
    }
  }

  /** DelegateNow on the opened ledger. */
  lemma RegrantEffect(L: Ledger, L1: Ledger, from: Account, to: Account, list: seq<Delegation>, r: Ledger, x: Account)
    requires Valid(L) && Valid(L1) && Valid(r) && L.clock <= L1.clock
    requires SameShape(L1, r) && from < |L1.logs| && to < |L1.logs|
    requires ViewAt(r, L1.clock) == Redelegate(ViewAt(L1, L1.clock), from, to, list)
    requires forall y :: BalanceOf(L1, y) == BalanceOf(L, y)
    requires forall y :: DelegatesOf(L1, y) == DelegatesOf(L, y)
    requires forall y, i :: VotePowerAt(L1, y, i) == VotePowerAt(L, y, i)
    ensures BalanceOf(r, x) == BalanceOf(L, x)
    ensures DelegatesOf(r, x) == if x == from then list else DelegatesOf(L, x)
    ensures VotePowerAt(r, x, L1.clock)
            == VotePowerAt(L, x, L.clock)
               + (if x == to then MovedPower(L, from, to, SharesTo(list, to)) else 0)
               - (if x == from then MovedPower(L, from, to, SharesTo(list, to)) else 0)
  {
    var c := L1.clock;
    var v := ViewAt(L1, c);
    ReadsAfterClock(L, x, c);
    CurrentReads(L1, from);
    assert Moved(v, from, to, list) == MovedPower(L, from, to, SharesTo(list, to));
    if x < |L1.logs| {
      RedelegateAt(v, from, to, list, x);
      CurrentReads(r, x);
      CurrentReads(L1, x);
      ReadsAreView(r, x, c);
      ReadsAreView(L1, x, c);
    }
  }

  /** A successful delegate at idx changes nothing recorded before idx. */
  lemma DelegatePast(L: Ledger, from: Account, to: Account, bp: nat, idx: nat, r: Ledger, x: Account, i: nat)
    requires Valid(L) && Delegate(L, from, to, bp, idx) == Ok(r) && i < idx
    ensures BalanceOfAt(r, x, i) == BalanceOfAt(L, x, i)
    ensures DelegatesOfAt(r, x, i) == DelegatesOfAt(L, x, i)
    ensures VotePowerAt(r, x, i) == VotePowerAt(L, x, i)
  {
    var L1 := Open(L, idx, from, to);
    OpenSpec(L, idx, from, to);
    assert AccountWF(L1, from);
    var list := SetShare(DelegatesOf(L1, from), to, bp, Scale(L1), L1.limit).value;
    assert r == Regrant(L1, from, to, list);
    RegrantPast(L1, from, to, list, i);
    PastReads(L, L1, r, x, i);
  }

  /** The constructor mints devFee to dev and nothing to anyone else; all of dev's balance is
      its own vote power. */
  lemma CreateSpec(precision: nat, limit: nat, devFee: nat, dev: Account, idx: nat, x: Account)
    ensures BalanceOf(Create(precision, limit, devFee, dev, idx), x) == if x == dev then devFee else 0
    ensures DelegatesOf(Create(precision, limit, devFee, dev, idx), x) == []
    ensures VotePowerAt(Create(precision, limit, devFee, dev, idx), x, idx)
            == if x == dev then Pow10(precision) * devFee else 0
  {
    var L := Ledger(precision, limit, idx, idx, []);
    EmptyValid(precision, limit, idx);
    var L1 := Open(L, idx, dev, dev);
    OpenSpec(L, idx, dev, dev);
    var r := Create(precision, limit, devFee, dev, idx);
    ShiftNow(L1, dev, devFee);
    ShiftEffect(L, L1, dev, devFee, r, x);
    assert VotePowerAt(L, x, L.clock) == 0 && DelegatesOf(L, dev) == [];
    var w := if x == dev then Pow10(precision) else 0;
    assert Weight(L, dev, x) == w;
    assert devFee * w == if x == dev then Pow10(precision) * devFee else 0;
  }
}
