/** The FAsset ledger: checkpointed balances, checkpointed delegation lists, and push-maintained
    own and received vote power, all keyed by account and written at the ledger's clock. */
module Ledgers {
  import opened Checkpoints
  import opened Delegations
  import opened Views

  /** The four histories kept for one account. */
  datatype AccountLog = AccountLog(
    balance: History<int>,
    delegations: History<seq<Delegation>>,
    own: History<int>,
    received: History<int>)

  /** precision: vote power and percentages are scaled by 10^precision (4 in the deployment
      under test, so 10000 is 100%); limit: the most delegatees one account may have;
      genesis: the index of construction; clock: the index of the latest mutation;
      logs: one log per account seen so far, accounts being numbered from 0. */
  datatype Ledger = Ledger(precision: nat, limit: nat, genesis: nat, clock: nat, logs: seq<AccountLog>)

  const EmptyLog: AccountLog := AccountLog([], [], [], [])

  function Pow10(k: nat): (r: nat)
    ensures r >= 1
  {
    if k == 0 then 1 else 10 * Pow10(k - 1)
  }

  /** The fixed-point unit: 100% in basis points, and the vote power of one undelegated token. */
  function Scale(L: Ledger): nat
  {
    Pow10(L.precision)
  }

  ghost predicate LogWF(g: AccountLog, c: nat)
  {
    && Ordered(g.balance) && Bounded(g.balance, c)
    && Ordered(g.delegations) && Bounded(g.delegations, c)
    && Ordered(g.own) && Bounded(g.own, c)
    && Ordered(g.received) && Bounded(g.received, c)
  }

  ghost predicate KnownDelegatees(L: Ledger, list: seq<Delegation>)
  {
    forall k :: 0 <= k < |list| ==> list[k].delegatee < |L.logs|
  }

  /** Structural well-formedness: histories ordered and not ahead of the clock, and every
      current delegation list names distinct accounts the ledger knows. */
  ghost predicate WF(L: Ledger)
  {
    && L.genesis <= L.clock
    && forall a :: 0 <= a < |L.logs| ==> AccountWF(L, a)
  }

  ghost predicate AccountWF(L: Ledger, a: Account)
    requires a < |L.logs|
  {
    && LogWF(L.logs[a], L.clock)
    && Distinct(DelegatesOf(L, a))
    && KnownDelegatees(L, DelegatesOf(L, a))
  }

  /** What the historical reads return for one account at index i. */
  function EntryAt(g: AccountLog, i: nat): Entry
  {
    Entry(ValueAt(g.balance, i, 0), ValueAt(g.delegations, i, []), ValueAt(g.own, i, 0), ValueAt(g.received, i, 0))
  }

  /** The state of every known account at index i. */
  function ViewAt(L: Ledger, i: nat): (v: View)
    ensures |v| == |L.logs|
  {
    seq(|L.logs|, a requires 0 <= a < |L.logs| => EntryAt(L.logs[a], i))
  }

  /** Every entry of a view records nothing. */
  ghost predicate Blank(v: View)
  {
    forall a :: 0 <= a < |v| ==> v[a] == NoEntry
  }

  /** The ledger invariant: well formed, blank before genesis, and at every index the
      push-maintained vote power agrees with the pull-computed reference. */
  ghost predicate Valid(L: Ledger)
  {
    && WF(L)
    && (forall i: nat :: i < L.genesis ==> Blank(ViewAt(L, i)))
    && (forall i: nat :: Coherent(ViewAt(L, i), Scale(L), L.limit))
  }

  // ---------------------------------------------------------------------------------------
  // Reads

  /** balanceOfAt: the balance account a held at index i (0 for an account never seen). */
  function BalanceOfAt(L: Ledger, a: Account, i: nat): (r: int)
    ensures a >= |L.logs| ==> r == 0
    ensures a < |L.logs| ==> InForce(L.logs[a].balance, i, 0, r)
  {
    if a < |L.logs| then ValueAtSpec(L.logs[a].balance, i, 0); EntryAt(L.logs[a], i).balance else 0
  }

  /** balanceOf: the current balance, read from the latest checkpoint. */
  function BalanceOf(L: Ledger, a: Account): (r: int)
    ensures a >= |L.logs| ==> r == 0
  {
    if a < |L.logs| then Latest(L.logs[a].balance, 0) else 0
  }

  /** The outgoing delegations of account a in force at index i. */
  function DelegatesOfAt(L: Ledger, a: Account, i: nat): seq<Delegation>
  {
    if a < |L.logs| then EntryAt(L.logs[a], i).delegations else []
  }

  /** The current outgoing delegations of account a. */
  function DelegatesOf(L: Ledger, a: Account): seq<Delegation>
  {
    if a < |L.logs| then Latest(L.logs[a].delegations, []) else []
  }

  /** votePowerAt: own plus received vote power at index i, scaled by 10^precision. */
  function VotePowerAt(L: Ledger, a: Account, i: nat): (r: int)
    ensures a >= |L.logs| ==> r == 0
  {
    if a < |L.logs| then EntryAt(L.logs[a], i).own + EntryAt(L.logs[a], i).received else 0
  }

  /** toPercent: drop the 10^precision scaling, truncating toward zero as big-number
      division does. */
  function ToPercent(vp: int, precision: nat): (r: int)
    ensures vp >= 0 ==> r * Pow10(precision) <= vp < (r + 1) * Pow10(precision)
    ensures vp < 0 ==> (r - 1) * Pow10(precision) < vp <= r * Pow10(precision)
  {
    if vp >= 0 then vp / Pow10(precision) else -((-vp) / Pow10(precision))
  }

  // ---------------------------------------------------------------------------------------
  // Single-history writes, all at the ledger's clock

  /** Give every account up to a a log, empty for the new ones (state is created lazily). */
  function Touch(L: Ledger, a: Account): (r: Ledger)
    ensures r == L.(logs := r.logs)
    ensures |r.logs| == if a < |L.logs| then |L.logs| else a + 1
    ensures forall k :: 0 <= k < |L.logs| ==> r.logs[k] == L.logs[k]
    ensures forall k :: |L.logs| <= k < |r.logs| ==> r.logs[k] == EmptyLog
  {
    if a < |L.logs| then L else L.(logs := L.logs + seq(a + 1 - |L.logs|, _ => EmptyLog))
  }

  /** r differs from L at most in the contents of its logs. */
  ghost predicate SameShape(L: Ledger, r: Ledger)
  {
    && r.precision == L.precision && r.limit == L.limit
    && r.genesis == L.genesis && r.clock == L.clock
    && |r.logs| == |L.logs|
  }

  function WriteBalance(L: Ledger, a: Account, value: int): (r: Ledger)
    requires a < |L.logs|
    ensures SameShape(L, r)
  {
    var g := L.logs[a];
    L.(logs := L.logs[a := g.(balance := Write(g.balance, L.clock, value))])
  }

  function WriteDelegations(L: Ledger, a: Account, list: seq<Delegation>): (r: Ledger)
    requires a < |L.logs|
    ensures SameShape(L, r)
  {
    var g := L.logs[a];
    L.(logs := L.logs[a := g.(delegations := Write(g.delegations, L.clock, list))])
  }

  /** Add d to a's own vote power. */
  function AddOwn(L: Ledger, a: Account, d: int): (r: Ledger)
    requires a < |L.logs|
    ensures SameShape(L, r)
  {
    var g := L.logs[a];
    L.(logs := L.logs[a := g.(own := Write(g.own, L.clock, Latest(g.own, 0) + d))])
  }

  /** Add d to a's received vote power. */
  function AddReceived(L: Ledger, a: Account, d: int): (r: Ledger)
    requires a < |L.logs|
    ensures SameShape(L, r)
  {
    var g := L.logs[a];
    L.(logs := L.logs[a := g.(received := Write(g.received, L.clock, Latest(g.received, 0) + d))])
  }

  /** A write to one account's log keeps the ledger well formed, provided that account's
      current delegations stay distinct and known. */
  lemma OneLogWF(L: Ledger, r: Ledger, a: Account)
    requires WF(L) && SameShape(L, r) && a < |L.logs|
    requires forall k :: 0 <= k < |L.logs| && k != a ==> r.logs[k] == L.logs[k]
    requires LogWF(r.logs[a], r.clock)
    requires Distinct(DelegatesOf(r, a)) && KnownDelegatees(r, DelegatesOf(r, a))
    ensures WF(r)
  {
    forall k | 0 <= k < |r.logs|
      ensures AccountWF(r, k)
    {
      if k != a {
        assert AccountWF(L, k);
        assert DelegatesOf(r, k) == DelegatesOf(L, k);
      }
    }
  }

  lemma WriteBalanceWF(L: Ledger, a: Account, value: int)
    requires WF(L) && a < |L.logs|
    ensures WF(WriteBalance(L, a, value))
  {
    var r := WriteBalance(L, a, value);
    assert AccountWF(L, a);
    WriteSpec(L.logs[a].balance, L.clock, value, 0, 0);
    assert DelegatesOf(r, a) == DelegatesOf(L, a);
    OneLogWF(L, r, a);
  }

  lemma WriteDelegationsWF(L: Ledger, a: Account, list: seq<Delegation>)
    requires WF(L) && a < |L.logs| && Distinct(list) && KnownDelegatees(L, list)
    ensures WF(WriteDelegations(L, a, list))
  {
    var r := WriteDelegations(L, a, list);
    assert AccountWF(L, a);
    WriteSpec(L.logs[a].delegations, L.clock, list, 0, []);
    assert DelegatesOf(r, a) == list;
    OneLogWF(L, r, a);
  }

  lemma AddOwnWF(L: Ledger, a: Account, d: int)
    requires WF(L) && a < |L.logs|
    ensures WF(AddOwn(L, a, d))
  {
    var r := AddOwn(L, a, d);
    assert AccountWF(L, a);
    WriteSpec(L.logs[a].own, L.clock, Latest(L.logs[a].own, 0) + d, 0, 0);
    assert DelegatesOf(r, a) == DelegatesOf(L, a);
    OneLogWF(L, r, a);
  }

  lemma AddReceivedWF(L: Ledger, a: Account, d: int)
    requires WF(L) && a < |L.logs|
    ensures WF(AddReceived(L, a, d))
  {
    var r := AddReceived(L, a, d);
    assert AccountWF(L, a);
    WriteSpec(L.logs[a].received, L.clock, Latest(L.logs[a].received, 0) + d, 0, 0);
    assert DelegatesOf(r, a) == DelegatesOf(L, a);
    OneLogWF(L, r, a);
  }

  // ---------------------------------------------------------------------------------------
  // What the single-history writes do to the views

  lemma OneLogChanged(L: Ledger, r: Ledger, a: Account, i: nat)
    requires |r.logs| == |L.logs| && a < |L.logs|
    requires forall k :: 0 <= k < |L.logs| && k != a ==> r.logs[k] == L.logs[k]
    ensures ViewAt(r, i) == ViewAt(L, i)[a := EntryAt(r.logs[a], i)]
  {
  }

  // Each write lemma below speaks of one index i at or before the clock: views before the
  // clock are untouched, and the current view changes in exactly one entry.

  lemma WriteBalanceView(L: Ledger, a: Account, value: int, i: nat)
    requires WF(L) && a < |L.logs| && i <= L.clock
    ensures ViewAt(WriteBalance(L, a, value), i) == if i < L.clock then ViewAt(L, i) else SetBalance(ViewAt(L, i), a, value)
  {
    var r, g := WriteBalance(L, a, value), L.logs[a];
    var h := Write(g.balance, L.clock, value);
    assert r.logs[a] == g.(balance := h);
    OneLogChanged(L, r, a, i);
    WriteSpec(g.balance, L.clock, value, i, 0);
    EntryWithBalance(g, h, i);
  }

  lemma WriteDelegationsView(L: Ledger, a: Account, list: seq<Delegation>, i: nat)
    requires WF(L) && a < |L.logs| && i <= L.clock
    ensures ViewAt(WriteDelegations(L, a, list), i)
            == if i < L.clock then ViewAt(L, i) else SetDelegations(ViewAt(L, i), a, list)
  {
    var r, g := WriteDelegations(L, a, list), L.logs[a];
    var h := Write(g.delegations, L.clock, list);
    assert r.logs[a] == g.(delegations := h);
    OneLogChanged(L, r, a, i);
    WriteSpec(g.delegations, L.clock, list, i, []);
    EntryWithDelegations(g, h, i);
  }

  lemma AddOwnView(L: Ledger, a: Account, d: int, i: nat)
    requires WF(L) && a < |L.logs| && i <= L.clock
    ensures ViewAt(AddOwn(L, a, d), i) == if i < L.clock then ViewAt(L, i) else AddOwnTo(ViewAt(L, i), a, d)
  {
    var r, g := AddOwn(L, a, d), L.logs[a];
    var x := Latest(g.own, 0) + d;
    var h := Write(g.own, L.clock, x);
    assert r.logs[a] == g.(own := h);
    OneLogChanged(L, r, a, i);
    WriteSpec(g.own, L.clock, x, i, 0);
    EntryWithOwn(g, h, i);
    if i == L.clock {
      assert AccountWF(L, a);
      LatestIsCurrent(g.own, L.clock, L.clock, 0);
    }
  }

  lemma AddReceivedView(L: Ledger, a: Account, d: int, i: nat)
    requires WF(L) && a < |L.logs| && i <= L.clock
    ensures ViewAt(AddReceived(L, a, d), i) == if i < L.clock then ViewAt(L, i) else AddReceivedTo(ViewAt(L, i), a, d)
  {
    var r, g := AddReceived(L, a, d), L.logs[a];
    var x := Latest(g.received, 0) + d;
    var h := Write(g.received, L.clock, x);
    assert r.logs[a] == g.(received := h);
    OneLogChanged(L, r, a, i);
    WriteSpec(g.received, L.clock, x, i, 0);
    EntryWithReceived(g, h, i);
    if i == L.clock {
      assert AccountWF(L, a);
      LatestIsCurrent(g.received, L.clock, L.clock, 0);
    }
  }

  // Replacing one history of a log changes only the matching field of what is read from it.

  lemma EntryWithBalance(g: AccountLog, h: History<int>, i: nat)
    ensures EntryAt(g.(balance := h), i) == EntryAt(g, i).(balance := ValueAt(h, i, 0))
  {
  }

  lemma EntryWithDelegations(g: AccountLog, h: History<seq<Delegation>>, i: nat)
    ensures EntryAt(g.(delegations := h), i) == EntryAt(g, i).(delegations := ValueAt(h, i, []))
  {
  }

  lemma EntryWithOwn(g: AccountLog, h: History<int>, i: nat)
    ensures EntryAt(g.(own := h), i) == EntryAt(g, i).(own := ValueAt(h, i, 0))
  {
  }

  lemma EntryWithReceived(g: AccountLog, h: History<int>, i: nat)
    ensures EntryAt(g.(received := h), i) == EntryAt(g, i).(received := ValueAt(h, i, 0))
  {
  }

  /** Once the clock has passed every checkpoint, all later views are the current one. */
  lemma ViewStable(L: Ledger, i: nat)
    requires WF(L) && L.clock <= i
    ensures ViewAt(L, i) == ViewAt(L, L.clock)
  {
    forall a | 0 <= a < |L.logs|
      ensures EntryAt(L.logs[a], i) == EntryAt(L.logs[a], L.clock)
    {
      var g := L.logs[a];
      assert AccountWF(L, a);
      LatestIsCurrent(g.balance, L.clock, i, 0);
      LatestIsCurrent(g.balance, L.clock, L.clock, 0);
      LatestIsCurrent(g.delegations, L.clock, i, []);
      LatestIsCurrent(g.delegations, L.clock, L.clock, []);
      LatestIsCurrent(g.own, L.clock, i, 0);
      LatestIsCurrent(g.own, L.clock, L.clock, 0);
      LatestIsCurrent(g.received, L.clock, i, 0);
      LatestIsCurrent(g.received, L.clock, L.clock, 0);
    }
  }

  /** The current reads are the entries of the current view. */
  lemma CurrentReads(L: Ledger, a: Account)
    requires WF(L) && a < |L.logs|
    ensures BalanceOf(L, a) == ViewAt(L, L.clock)[a].balance
    ensures DelegatesOf(L, a) == ViewAt(L, L.clock)[a].delegations
  {
    assert AccountWF(L, a);
    LatestIsCurrent(L.logs[a].balance, L.clock, L.clock, 0);
    LatestIsCurrent(L.logs[a].delegations, L.clock, L.clock, []);
  }

  // ---------------------------------------------------------------------------------------
  // Moving the clock and opening accounts

  /** Moving the clock forward changes no view and keeps the ledger well formed. */
  lemma AdvanceWF(L: Ledger, idx: nat)
    requires WF(L) && L.clock <= idx
    ensures WF(L.(clock := idx))
    ensures forall i :: ViewAt(L.(clock := idx), i) == ViewAt(L, i)
  {
    var r := L.(clock := idx);
    forall a | 0 <= a < |r.logs|
      ensures AccountWF(r, a)
    {
      assert AccountWF(L, a);
      assert DelegatesOf(r, a) == DelegatesOf(L, a);
    }
  }

  /** An account with no history reads as nothing at every index. */
  lemma EmptyEntry(i: nat)
    ensures EntryAt(EmptyLog, i) == NoEntry
  {
  }

  /** Opening an account keeps the ledger well formed. */
  lemma TouchWF(L: Ledger, a: Account)
    requires WF(L)
    ensures WF(Touch(L, a))
  {
    var r := Touch(L, a);
    forall k | 0 <= k < |r.logs|
      ensures AccountWF(r, k)
    {
      if k < |L.logs| {
        assert AccountWF(L, k);
        assert DelegatesOf(r, k) == DelegatesOf(L, k);
      }
    }
  }

  /** Opening an account appends accounts that read as nothing; the others are untouched. */
  lemma TouchView(L: Ledger, a: Account, i: nat)
    ensures ViewAt(Touch(L, a), i) == Pad(ViewAt(L, i), |Touch(L, a).logs|)
  {
    EmptyEntry(i);
  }

  /** Opening an account changes no read. */
  lemma TouchReads(L: Ledger, a: Account, x: Account, i: nat)
    ensures BalanceOf(Touch(L, a), x) == BalanceOf(L, x)
    ensures DelegatesOf(Touch(L, a), x) == DelegatesOf(L, x)
    ensures BalanceOfAt(Touch(L, a), x, i) == BalanceOfAt(L, x, i)
    ensures DelegatesOfAt(Touch(L, a), x, i) == DelegatesOfAt(L, x, i)
    ensures VotePowerAt(Touch(L, a), x, i) == VotePowerAt(L, x, i)
  {
    EmptyEntry(i);
  }

  /** Every historical read is a field of the snapshot at that index. */
  lemma ReadsAreView(L: Ledger, x: Account, i: nat)
    requires x < |L.logs|
    ensures BalanceOfAt(L, x, i) == ViewAt(L, i)[x].balance
    ensures DelegatesOfAt(L, x, i) == ViewAt(L, i)[x].delegations
    ensures VotePowerAt(L, x, i) == ViewAt(L, i)[x].own + ViewAt(L, i)[x].received
  {
  }
}
