/** The two push cascades of the ledger: a balance change and a delegation change, each as a
    sequence of single-history writes, and what they do to the snapshots. */
module Cascades {
  import opened Delegations
  import opened Views
  import opened Ledgers

  // ---------------------------------------------------------------------------------------
  // The two cascades

  /** Push delta times each entry's percentage to that entry's delegatee, in list order. */
  function PushReceived(L: Ledger, list: seq<Delegation>, delta: int): (r: Ledger)
    requires KnownDelegatees(L, list)
    ensures SameShape(L, r)
    decreases |list|
  {
    if |list| == 0 then L
    else
      var e := list[|list| - 1];
      AddReceived(PushReceived(L, list[..|list| - 1], delta), e.delegatee, delta * e.bp)
  }

  lemma {:induction false} PushReceivedWF(L: Ledger, list: seq<Delegation>, delta: int)
    requires WF(L) && KnownDelegatees(L, list)
    ensures WF(PushReceived(L, list, delta))
    decreases |list|
  {
    if |list| > 0 {
      var e := list[|list| - 1];
      PushReceivedWF(L, list[..|list| - 1], delta);
      AddReceivedWF(PushReceived(L, list[..|list| - 1], delta), e.delegatee, delta * e.bp);
    }
  }

  lemma {:induction false} PushReceivedView(L: Ledger, list: seq<Delegation>, delta: int, i: nat)
    requires WF(L) && KnownDelegatees(L, list) && i <= L.clock
    ensures ViewAt(PushReceived(L, list, delta), i) == if i < L.clock then ViewAt(L, i) else Pushed(ViewAt(L, i), list, delta)
    decreases |list|
  {
    var v := ViewAt(L, i);
    if |list| == 0 {
      assert Pushed(v, list, delta) == v;
    } else {
      var init, e := list[..|list| - 1], list[|list| - 1];
      var mid := PushReceived(L, init, delta);
      PushReceivedWF(L, init, delta);
      PushReceivedView(L, init, delta, i);
      AddReceivedView(mid, e.delegatee, delta * e.bp, i);
      if i == L.clock {
        PushedStep(v, list, delta);
      }
    }
  }

  /** Pushing a list is pushing all but its last entry, then the last entry. */
  lemma PushedStep(v: View, list: seq<Delegation>, delta: int)
    requires |list| > 0 && list[|list| - 1].delegatee < |v|
    ensures Pushed(v, list, delta)
            == AddReceivedTo(Pushed(v, list[..|list| - 1], delta), list[|list| - 1].delegatee, delta * list[|list| - 1].bp)
  {
    var init, e := list[..|list| - 1], list[|list| - 1];
    forall x | 0 <= x < |v|
      ensures Pushed(v, list, delta)[x].received
              == Pushed(v, init, delta)[x].received + (if x == e.delegatee then delta * e.bp else 0)
    {
      var p := if e.delegatee == x then e.bp else 0;
      assert SharesTo(list, x) == SharesTo(init, x) + p;
      Distribute(delta, SharesTo(init, x), p);
    }
  }

  /** onBalanceChanged: account a's balance moves by delta; its own power moves by delta times
      its undelegated percentage and each delegatee's received power by delta times its share. */
  function OnBalanceChanged(L: Ledger, a: Account, delta: int): (r: Ledger)
    requires a < |L.logs| && KnownDelegatees(L, DelegatesOf(L, a))
    ensures SameShape(L, r)
  {
    var list := DelegatesOf(L, a);
    PushReceived(AddOwn(L, a, delta * (Scale(L) - Total(list))), list, delta)
  }

  /** onBalanceChanged leaves every earlier snapshot alone, and turns the current one into
      the snapshot with a's own power credited and each delegatee's received power pushed. */
  lemma OnBalanceChangedEffect(L: Ledger, a: Account, delta: int, i: nat)
    requires WF(L) && a < |L.logs| && i <= L.clock
    ensures KnownDelegatees(L, DelegatesOf(L, a))
    ensures WF(OnBalanceChanged(L, a, delta))
    ensures ViewAt(OnBalanceChanged(L, a, delta), i)
            == if i < L.clock then ViewAt(L, i)
               else Pushed(AddOwnTo(ViewAt(L, i), a, delta * (Scale(L) - Total(DelegatesOf(L, a)))), DelegatesOf(L, a), delta)
  {
    assert AccountWF(L, a);
    var list := DelegatesOf(L, a);
    var d := delta * (Scale(L) - Total(list));
    var L1 := AddOwn(L, a, d);
    AddOwnWF(L, a, d);
    AddOwnView(L, a, d, i);
    PushReceivedWF(L1, list, delta);
    PushReceivedView(L1, list, delta, i);
  }

  /** creditDebit's effect: cascade a balance change of delta on account a into vote power and
      record a's new balance. */
  function Shift(L: Ledger, a: Account, delta: int): (r: Ledger)
    requires WF(L) && a < |L.logs|
    ensures SameShape(L, r)
  {
    assert AccountWF(L, a);
    WriteBalance(OnBalanceChanged(L, a, delta), a, BalanceOf(L, a) + delta)
  }

  /** Shift is the own-power write, the received-power pushes and the balance write. */
  lemma ShiftSteps(L: Ledger, a: Account, delta: int, list: seq<Delegation>, d: int)
    requires WF(L) && a < |L.logs|
    requires list == DelegatesOf(L, a) && d == delta * (Scale(L) - Total(list))
    ensures KnownDelegatees(AddOwn(L, a, d), list)
    ensures Shift(L, a, delta) == WriteBalance(PushReceived(AddOwn(L, a, d), list, delta), a, BalanceOf(L, a) + delta)
  {
    assert AccountWF(L, a);
  }

  lemma ShiftWF(L: Ledger, a: Account, delta: int)
    requires WF(L) && a < |L.logs|
    ensures WF(Shift(L, a, delta))
  {
    assert AccountWF(L, a);
    var list := DelegatesOf(L, a);
    var L1 := AddOwn(L, a, delta * (Scale(L) - Total(list)));
    AddOwnWF(L, a, delta * (Scale(L) - Total(list)));
    PushReceivedWF(L1, list, delta);
    WriteBalanceWF(PushReceived(L1, list, delta), a, BalanceOf(L, a) + delta);
  }

  /** Shift leaves every earlier snapshot alone. */
  lemma ShiftPast(L: Ledger, a: Account, delta: int, i: nat)
    requires WF(L) && a < |L.logs| && i < L.clock
    ensures ViewAt(Shift(L, a, delta), i) == ViewAt(L, i)
  {
    assert AccountWF(L, a);
    var list := DelegatesOf(L, a);
    var d := delta * (Scale(L) - Total(list));
    var L1 := AddOwn(L, a, d);
    ShiftSteps(L, a, delta, list, d);
    AddOwnWF(L, a, d);
    PushReceivedWF(L1, list, delta);
    AddOwnView(L, a, d, i);
    PushReceivedView(L1, list, delta, i);
    WriteBalanceView(PushReceived(L1, list, delta), a, BalanceOf(L, a) + delta, i);
  }

  /** Shift applies the balance cascade to the current snapshot. */
  lemma ShiftNow(L: Ledger, a: Account, delta: int)
    requires WF(L) && a < |L.logs|
    ensures ViewAt(Shift(L, a, delta), L.clock) == Credit(ViewAt(L, L.clock), a, delta, Scale(L))
  {
    assert AccountWF(L, a);
    var v := ViewAt(L, L.clock);
    var list := DelegatesOf(L, a);
    var d := delta * (Scale(L) - Total(list));
    var b := BalanceOf(L, a) + delta;
    ShiftCascade(L, a, delta, list, d, b);
    CurrentReads(L, a);
    CreditUnfold(v, a, delta, Scale(L), list, d, b);
  }

  /** The snapshot at the clock after Shift: own credited, the cascade pushed, the balance
      written. */
  lemma ShiftCascade(L: Ledger, a: Account, delta: int, list: seq<Delegation>, d: int, b: int)
    requires WF(L) && a < |L.logs| && list == DelegatesOf(L, a) && d == delta * (Scale(L) - Total(list))
    requires b == BalanceOf(L, a) + delta
    ensures ViewAt(Shift(L, a, delta), L.clock)
            == SetBalance(Pushed(AddOwnTo(ViewAt(L, L.clock), a, d), list, delta), a, b)
  {
    assert AccountWF(L, a);
    var i := L.clock;
    var L1 := AddOwn(L, a, d);
    var L2 := PushReceived(L1, list, delta);
    var v2 := Pushed(AddOwnTo(ViewAt(L, i), a, d), list, delta);
    assert ViewAt(L2, i) == v2 && WF(L2) && a < |L2.logs| && L2.clock == i by {
      ShiftSteps(L, a, delta, list, d);
      AddOwnWF(L, a, d);
      AddOwnView(L, a, d, i);
      PushReceivedWF(L1, list, delta);
      PushReceivedView(L1, list, delta, i);
    }
    ShiftSteps(L, a, delta, list, d);
    WriteBalanceView(L2, a, b, i);
  }

  /** onDelegationChanged: delegator `from` now grants `to` dbp more basis points; its current
      balance times dbp is added to the delegatee's received power and taken from its own. */
  function OnDelegationChanged(L: Ledger, from: Account, to: Account, dbp: int): (r: Ledger)
    requires from < |L.logs| && to < |L.logs|
    ensures SameShape(L, r)
  {
    var moved := BalanceOf(L, from) * dbp;
    AddOwn(AddReceived(L, to, moved), from, -moved)
  }

  /** onDelegationChanged leaves every earlier snapshot alone, and in the current one moves
      from's balance times dbp from from's own power to to's received power. */
  lemma OnDelegationChangedEffect(L: Ledger, from: Account, to: Account, dbp: int, i: nat)
    requires WF(L) && from < |L.logs| && to < |L.logs| && i <= L.clock
    ensures ViewAt(OnDelegationChanged(L, from, to, dbp), i)
            == if i < L.clock then ViewAt(L, i)
               else AddOwnTo(AddReceivedTo(ViewAt(L, i), to, BalanceOf(L, from) * dbp), from, -(BalanceOf(L, from) * dbp))
  {
    var moved := BalanceOf(L, from) * dbp;
    assert OnDelegationChanged(L, from, to, dbp) == AddOwn(AddReceived(L, to, moved), from, -moved);
    if i < L.clock {
      MovePast(L, from, to, moved, i);
    } else {
      MoveNow(L, from, to, moved);
    }
  }

  /** setDelegation's effect: from's delegations become `list`, which differs from the current
      one only in what it grants `to`; the change in that grant is cascaded into vote power. */
  function Regrant(L: Ledger, from: Account, to: Account, list: seq<Delegation>): (r: Ledger)
    requires from < |L.logs| && to < |L.logs|
    ensures SameShape(L, r)
  {
    var dbp := SharesTo(list, to) - SharesTo(DelegatesOf(L, from), to);
    WriteDelegations(OnDelegationChanged(L, from, to, dbp), from, list)
  }

  /** Regrant is the received-power write, the own-power write and the delegation write. */
  lemma RegrantSteps(L: Ledger, from: Account, to: Account, list: seq<Delegation>, moved: int)
    requires from < |L.logs| && to < |L.logs|
    requires moved == BalanceOf(L, from) * (SharesTo(list, to) - SharesTo(DelegatesOf(L, from), to))
    ensures Regrant(L, from, to, list) == WriteDelegations(AddOwn(AddReceived(L, to, moved), from, -moved), from, list)
  {
  }

  lemma RegrantWF(L: Ledger, from: Account, to: Account, list: seq<Delegation>)
    requires WF(L) && from < |L.logs| && to < |L.logs| && Distinct(list) && KnownDelegatees(L, list)
    ensures WF(Regrant(L, from, to, list))
  {
    var moved := BalanceOf(L, from) * (SharesTo(list, to) - SharesTo(DelegatesOf(L, from), to));
    var L1 := AddReceived(L, to, moved);
    AddReceivedWF(L, to, moved);
    AddOwnWF(L1, from, -moved);
    WriteDelegationsWF(AddOwn(L1, from, -moved), from, list);
  }

  /** Moving m vote power from one account's own share to another's received share leaves
      every earlier snapshot alone. */
  lemma MovePast(L: Ledger, from: Account, to: Account, m: int, i: nat)
    requires WF(L) && from < |L.logs| && to < |L.logs| && i < L.clock
    ensures ViewAt(AddOwn(AddReceived(L, to, m), from, -m), i) == ViewAt(L, i)
  {
    var L1 := AddReceived(L, to, m);
    assert ViewAt(L1, i) == ViewAt(L, i) && WF(L1) by {
      AddReceivedView(L, to, m, i);
      AddReceivedWF(L, to, m);
    }
    AddOwnView(L1, from, -m, i);
  }

  /** The same move, as seen in the current snapshot. */
  lemma MoveNow(L: Ledger, from: Account, to: Account, m: int)
    requires WF(L) && from < |L.logs| && to < |L.logs|
    ensures ViewAt(AddOwn(AddReceived(L, to, m), from, -m), L.clock)
            == AddOwnTo(AddReceivedTo(ViewAt(L, L.clock), to, m), from, -m)
  {
    var L1 := AddReceived(L, to, m);
    assert ViewAt(L1, L.clock) == AddReceivedTo(ViewAt(L, L.clock), to, m) && WF(L1) by {
      AddReceivedView(L, to, m, L.clock);
      AddReceivedWF(L, to, m);
    }
    AddOwnView(L1, from, -m, L.clock);
  }

  /** Regrant leaves every earlier snapshot alone. */
  lemma RegrantPast(L: Ledger, from: Account, to: Account, list: seq<Delegation>, i: nat)
    requires WF(L) && from < |L.logs| && to < |L.logs| && i < L.clock
    ensures ViewAt(Regrant(L, from, to, list), i) == ViewAt(L, i)
  {
    var moved := BalanceOf(L, from) * (SharesTo(list, to) - SharesTo(DelegatesOf(L, from), to));
    var L2 := AddOwn(AddReceived(L, to, moved), from, -moved);
    RegrantSteps(L, from, to, list, moved);
    MovePast(L, from, to, moved, i);
    assert WF(L2) by {
      AddReceivedWF(L, to, moved);
      AddOwnWF(AddReceived(L, to, moved), from, -moved);
    }
    WriteDelegationsView(L2, from, list, i);
  }

  /** Regrant applies the delegation cascade to the current snapshot. */
  lemma RegrantNow(L: Ledger, from: Account, to: Account, list: seq<Delegation>)
    requires WF(L) && from < |L.logs| && to < |L.logs|
    ensures ViewAt(Regrant(L, from, to, list), L.clock) == Redelegate(ViewAt(L, L.clock), from, to, list)
  {
    var i := L.clock;
    var v := ViewAt(L, i);
    var moved := BalanceOf(L, from) * (SharesTo(list, to) - SharesTo(DelegatesOf(L, from), to));
    var L2 := AddOwn(AddReceived(L, to, moved), from, -moved);
    var v2 := AddOwnTo(AddReceivedTo(v, to, moved), from, -moved);
    assert ViewAt(L2, i) == v2 && WF(L2) && L2.clock == i && from < |L2.logs| by {
      MoveNow(L, from, to, moved);
      AddReceivedWF(L, to, moved);
      AddOwnWF(AddReceived(L, to, moved), from, -moved);
    }
    assert ViewAt(Regrant(L, from, to, list), i) == SetDelegations(v2, from, list) by {
      RegrantSteps(L, from, to, list, moved);
      WriteDelegationsView(L2, from, list, i);
    }
    CurrentReads(L, from);
    RedelegateUnfold(v, from, to, list, moved);
  }
}
