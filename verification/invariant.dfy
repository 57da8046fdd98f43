/** The ledger invariant Valid: which steps preserve it, and what it says about the reads. */
module Invariant {
  import opened Sums
  import opened Delegations
  import opened Views
  import opened Ledgers
  import opened Cascades

  // ---------------------------------------------------------------------------------------
  // Steps that preserve the invariant

  /** The ledger as created: no account, nothing recorded, clock at genesis. */
  lemma EmptyValid(precision: nat, limit: nat, idx: nat)
    ensures Valid(Ledger(precision, limit, idx, idx, []))
  {
    var L := Ledger(precision, limit, idx, idx, []);
    forall i: nat
      ensures Coherent(ViewAt(L, i), Scale(L), L.limit) && Blank(ViewAt(L, i))
    {
      assert ViewAt(L, i) == [];
    }
  }

  lemma AdvanceValid(L: Ledger, idx: nat)
    requires Valid(L) && L.clock <= idx
    ensures Valid(L.(clock := idx))
  {
    var r := L.(clock := idx);
    AdvanceWF(L, idx);
    forall i: nat
      ensures Coherent(ViewAt(r, i), Scale(r), r.limit)
      ensures i < r.genesis ==> Blank(ViewAt(r, i))
    {
      assert ViewAt(r, i) == ViewAt(L, i);
    }
  }

  lemma TouchValid(L: Ledger, a: Account)
    requires Valid(L)
    ensures Valid(Touch(L, a))
  {
    var r := Touch(L, a);
    TouchWF(L, a);
    forall i: nat
      ensures Coherent(ViewAt(r, i), Scale(r), r.limit)
      ensures i < r.genesis ==> Blank(ViewAt(r, i))
    {
      TouchView(L, a, i);
      PadCoherent(ViewAt(L, i), |r.logs|, Scale(L), L.limit);
    }
  }

  /** A balance change that leaves the balance non-negative preserves the invariant. */
  lemma ShiftValid(L: Ledger, a: Account, delta: int)
    requires Valid(L) && a < |L.logs| && BalanceOf(L, a) + delta >= 0
    ensures Valid(Shift(L, a, delta))
  {
    var r := Shift(L, a, delta);
    var v := ViewAt(L, L.clock);
    ShiftWF(L, a, delta);
    assert Coherent(ViewAt(r, r.clock), Scale(r), r.limit) by {
      CurrentReads(L, a);
      ShiftNow(L, a, delta);
      CreditCoherent(v, a, delta, Scale(L), L.limit);
    }
    forall i: nat
      ensures Coherent(ViewAt(r, i), Scale(r), r.limit)
      ensures i < r.genesis ==> Blank(ViewAt(r, i))
    {
      if i < L.clock {
        ShiftPast(L, a, delta, i);
      } else {
        ViewStable(r, i);
      }
    }
  }

  /** Replacing from's delegation list by one that differs only in what it grants `to`, and
      is itself well formed, preserves the invariant. */
  lemma RegrantValid(L: Ledger, from: Account, to: Account, list: seq<Delegation>)
    requires Valid(L) && from < |L.logs| && to < |L.logs|
    requires WellFormed(list, |L.logs|, Scale(L), L.limit)
    requires forall y :: y != to ==> SharesTo(list, y) == SharesTo(DelegatesOf(L, from), y)
    requires Total(list) == Total(DelegatesOf(L, from)) - SharesTo(DelegatesOf(L, from), to) + SharesTo(list, to)
    ensures Valid(Regrant(L, from, to, list))
  {
    var r := Regrant(L, from, to, list);
    var v := ViewAt(L, L.clock);
    RegrantWF(L, from, to, list);
    assert Coherent(ViewAt(r, r.clock), Scale(r), r.limit) by {
      CurrentReads(L, from);
      RegrantNow(L, from, to, list);
      RedelegateCoherent(v, from, to, list, Scale(L), L.limit);
    }
    forall i: nat
      ensures Coherent(ViewAt(r, i), Scale(r), r.limit)
      ensures i < r.genesis ==> Blank(ViewAt(r, i))
    {
      if i < L.clock {
        RegrantPast(L, from, to, list, i);
      } else {
        ViewStable(r, i);
      }
    }
  }

  // ---------------------------------------------------------------------------------------
  // What the invariant says about the reads

  /** Balances and vote power are never negative. */
  lemma ReadsNonneg(L: Ledger, a: Account, i: nat)
    requires Valid(L)
    ensures BalanceOfAt(L, a, i) >= 0 && VotePowerAt(L, a, i) >= 0
  {
    if a < |L.logs| {
      var v := ViewAt(L, i);
      assert Coherent(v, Scale(L), L.limit);
      assert EntryCoherent(v, a, Scale(L), L.limit);
      PowerNonneg(v, Scale(L), L.limit, a);
      ReadsAreView(L, a, i);
    }
  }

  /** At every index an account's delegations hand out at most 100% and hold at most
      `limit` entries. */
  lemma DelegationsBounded(L: Ledger, a: Account, i: nat)
    requires Valid(L)
    ensures Total(DelegatesOfAt(L, a, i)) <= Scale(L) && |DelegatesOfAt(L, a, i)| <= L.limit
  {
    if a < |L.logs| {
      var v := ViewAt(L, i);
      assert Coherent(v, Scale(L), L.limit);
      assert EntryCoherent(v, a, Scale(L), L.limit);
      ReadsAreView(L, a, i);
    }
  }

  /** Before the ledger was created nothing was held and nobody had vote power. */
  lemma BeforeGenesis(L: Ledger, a: Account, i: nat)
    requires Valid(L) && i < L.genesis
    ensures BalanceOfAt(L, a, i) == 0 && VotePowerAt(L, a, i) == 0 && DelegatesOfAt(L, a, i) == []
  {
    if a < |L.logs| {
      assert Blank(ViewAt(L, i));
      ReadsAreView(L, a, i);
    }
  }

  /** A historical read at or after the latest mutation returns the current value. */
  lemma ReadsAfterClock(L: Ledger, a: Account, i: nat)
    requires WF(L) && L.clock <= i
    ensures BalanceOfAt(L, a, i) == BalanceOf(L, a)
    ensures DelegatesOfAt(L, a, i) == DelegatesOf(L, a)
    ensures VotePowerAt(L, a, i) == VotePowerAt(L, a, L.clock)
  {
    if a < |L.logs| {
      ViewStable(L, i);
      CurrentReads(L, a);
      ReadsAreView(L, a, i);
      ReadsAreView(L, a, L.clock);
    }
  }

  /** The push-maintained vote power equals the pull-computed one: the account's balance
      times the percentage it keeps, plus every delegator's balance times the percentage it
      grants the account, all at the same index. */
  lemma VotePowerIsReference(L: Ledger, a: Account, i: nat)
    requires Valid(L)
    ensures VotePowerAt(L, a, i)
            == BalanceOfAt(L, a, i) * (Scale(L) - Total(DelegatesOfAt(L, a, i)))
               + Sum(Column(Grants(ViewAt(L, i)), a), |L.logs|)
  {
    var v := ViewAt(L, i);
    if a < |L.logs| {
      assert Coherent(v, Scale(L), L.limit);
      assert EntryCoherent(v, a, Scale(L), L.limit);
      ReadsAreView(L, a, i);
    } else {
      forall d: nat | d < |v|
        ensures Column(Grants(v), a)(d) == 0
      {
        assert Coherent(v, Scale(L), L.limit);
        assert EntryCoherent(v, d, Scale(L), L.limit);
        SharesToAbsent(v[d].delegations, a);
      }
      SumZero(Column(Grants(v), a), |v|);
    }
  }

  /** An account that delegates nothing and is delegated nothing has exactly its balance as
      vote power, once the scaling is dropped. */
  lemma UndelegatedPower(L: Ledger, a: Account, i: nat)
    requires Valid(L)
    requires DelegatesOfAt(L, a, i) == []
    requires forall d :: SharesTo(DelegatesOfAt(L, d, i), a) == 0
    ensures VotePowerAt(L, a, i) == Scale(L) * BalanceOfAt(L, a, i)
    ensures ToPercent(VotePowerAt(L, a, i), L.precision) == BalanceOfAt(L, a, i)
  {
    var v := ViewAt(L, i);
    forall d: nat | d < |L.logs|
      ensures Column(Grants(v), a)(d) == 0
    {
      assert SharesTo(DelegatesOfAt(L, d, i), a) == 0;
      ReadsAreView(L, d, i);
    }
    SumZero(Column(Grants(v), a), |L.logs|);
    VotePowerIsReference(L, a, i);
    ReadsNonneg(L, a, i);
    ScaledPercent(BalanceOfAt(L, a, i), L.precision);
  }

  /** Dropping the scaling from a whole number of tokens gives the number back. */
  lemma ScaledPercent(b: int, precision: nat)
    requires b >= 0
    ensures ToPercent(Pow10(precision) * b, precision) == b
  {
    var s := Pow10(precision);
    var r := ToPercent(s * b, precision);
    assert r * s <= s * b < (r + 1) * s;
    if r < b {
      assert (r + 1) * s <= b * s by {
        MulMono(r + 1, b, s);
      }
    } else if r > b {
      assert (b + 1) * s <= r * s by {
        MulMono(b + 1, r, s);
      }
    }
  }

  lemma MulMono(x: int, y: int, s: nat)
    requires x <= y
    ensures x * s <= y * s
  {
  }

  /** Delegation only moves vote power around: at every index the total vote power is the
      total supply times the scale. */
  lemma TotalPowerIsSupply(L: Ledger, i: nat)
    requires Valid(L)
    ensures TotalPower(ViewAt(L, i)) == Scale(L) * Supply(ViewAt(L, i))
  {
    Conservation(ViewAt(L, i), Scale(L), L.limit);
  }
}
