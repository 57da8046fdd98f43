/** A snapshot of the ledger at one index, the pull-computed reference for vote power, and
    the arithmetic of the two push cascades stated on snapshots. */
module Views {
  import opened Sums
  import opened Delegations

  /** What one account holds at one index: its balance, its outgoing delegations, and the two
      push-maintained vote-power components. Vote power is scaled: one undelegated token is
      worth `scale` (10^PRECISION) units. */
  datatype Entry = Entry(balance: int, delegations: seq<Delegation>, own: int, received: int)

  const NoEntry: Entry := Entry(0, [], 0, 0)

  /** A snapshot: entry a belongs to account a. */
  type View = seq<Entry>

  /** What delegator d hands to x: d's balance times the percentage d grants x. */
  function Grant(v: View, d: nat, x: nat): int
  {
    if d < |v| then v[d].balance * SharesTo(v[d].delegations, x) else 0
  }

  /** The grant matrix, delegators by delegatees. */
  function Grants(v: View): (nat, nat) -> int
  {
    (d: nat, x: nat) => Grant(v, d, x)
  }

  /** Received vote power computed by pulling from every delegator: the quantity the push
      cascade maintains incrementally. */
  function ReceivedRef(v: View, x: nat): int
  {
    Sum(Column(Grants(v), x), |v|)
  }

  /** The invariant tying the push-maintained components to the reference, account by account. */
  ghost predicate Coherent(v: View, scale: nat, limit: nat)
  {
    forall a :: 0 <= a < |v| ==> EntryCoherent(v, a, scale, limit)
  }

  /** Account a's balance is non-negative, its delegation list well formed, its own power is
      its balance times its undelegated percentage, and its received power is what its
      delegators hand it. */
  ghost predicate EntryCoherent(v: View, a: nat, scale: nat, limit: nat)
    requires a < |v|
  {
    && v[a].balance >= 0
    && WellFormed(v[a].delegations, |v|, scale, limit)
    && OwnMatches(v[a], scale)
    && ReceivedMatches(v, a)
  }

  /** Own power is the balance times the percentage the account keeps. */
  predicate OwnMatches(e: Entry, scale: nat)
  {
    e.own == e.balance * (scale - Total(e.delegations))
  }

  /** Received power is what the pull reference computes. */
  predicate ReceivedMatches(v: View, a: nat)
    requires a < |v|
  {
    v[a].received == ReceivedRef(v, a)
  }

  function Balances(v: View): nat -> int
  {
    (a: nat) => if a < |v| then v[a].balance else 0
  }

  function Powers(v: View): nat -> int
  {
    (a: nat) => if a < |v| then v[a].own + v[a].received else 0
  }

  /** Total supply: the sum of all balances. */
  function Supply(v: View): int
  {
    Sum(Balances(v), |v|)
  }

  /** The sum of every account's (scaled) vote power. */
  function TotalPower(v: View): int
  {
    Sum(Powers(v), |v|)
  }

  /** Vote power is never negative. */
  lemma PowerNonneg(v: View, scale: nat, limit: nat, a: nat)
    requires Coherent(v, scale, limit) && a < |v|
    ensures v[a].own >= 0 && v[a].received >= 0
  {
    assert EntryCoherent(v, a, scale, limit);
    forall d: nat | d < |v|
      ensures Column(Grants(v), a)(d) >= 0
    {
      assert EntryCoherent(v, d, scale, limit);
    }
    SumNonneg(Column(Grants(v), a), |v|);
  }

  /** Delegation only moves vote power around: the total is the supply times the scale. */
  lemma Conservation(v: View, scale: nat, limit: nat)
    requires Coherent(v, scale, limit)
    ensures TotalPower(v) == scale * Supply(v)
  {
    var n := |v|;
    var m := Grants(v);
    var owns := (a: nat) => if a < n then v[a].own else 0;
    var receiveds := (a: nat) => if a < n then v[a].received else 0;
    var handed := (a: nat) => if a < n then v[a].balance * Total(v[a].delegations) else 0;
    var kept := (a: nat) => if a < n then scale * v[a].balance else 0;
    forall a: nat | a < n
      ensures owns(a) == kept(a) - handed(a) && receiveds(a) == ColumnTotals(m, n)(a)
    {
      assert EntryCoherent(v, a, scale, limit);
    }
    SumAdd(owns, receiveds, Powers(v), n);
    // own power: the scaled supply minus everything handed out
    SumSub(kept, handed, owns, n);
    SumScale(Balances(v), kept, scale, n);
    // received power: summing the grant matrix by columns equals summing it by rows
    SumExt(receiveds, ColumnTotals(m, n), n);
    SumSwap(m, n, n);
    forall d: nat | d < n
      ensures RowTotals(m, n)(d) == handed(d)
    {
      assert EntryCoherent(v, d, scale, limit);
      SumScale(ShareOf(v[d].delegations), Row(m, d), v[d].balance, n);
      SharesSumToTotal(v[d].delegations, n);
    }
    SumExt(RowTotals(m, n), handed, n);
  }

  /** Received powers after every delegatee in `list` has been pushed delta times its percentage. */
  function Pushed(v: View, list: seq<Delegation>, delta: int): (r: View)
    ensures |r| == |v|
    ensures forall x :: 0 <= x < |v| ==> r[x] == v[x].(received := v[x].received + delta * SharesTo(list, x))
  {
    seq(|v|, x requires 0 <= x < |v| => v[x].(received := v[x].received + delta * SharesTo(list, x)))
  }

  // Single-entry updates of a snapshot, one per kind of checkpoint write.

  function SetBalance(v: View, a: nat, b: int): View
    requires a < |v|
  {
    v[a := v[a].(balance := b)]
  }

  function SetDelegations(v: View, a: nat, list: seq<Delegation>): View
    requires a < |v|
  {
    v[a := v[a].(delegations := list)]
  }

  function AddOwnTo(v: View, a: nat, d: int): View
    requires a < |v|
  {
    v[a := v[a].(own := v[a].own + d)]
  }

  function AddReceivedTo(v: View, a: nat, d: int): View
    requires a < |v|
  {
    v[a := v[a].(received := v[a].received + d)]
  }

  /** The balance-change cascade on a snapshot: a's own power moves by delta times its
      undelegated percentage, each delegatee's received power by delta times the percentage
      it is granted, and a's balance by delta. */
  function Credit(v: View, a: nat, delta: int, scale: nat): (r: View)
    requires a < |v|
    ensures |r| == |v|
  {
    var list := v[a].delegations;
    SetBalance(Pushed(AddOwnTo(v, a, delta * (scale - Total(list))), list, delta), a, v[a].balance + delta)
  }

  /** Credit with its intermediate values named. */
  lemma CreditUnfold(v: View, a: nat, delta: int, scale: nat, list: seq<Delegation>, d: int, b: int)
    requires a < |v| && list == v[a].delegations && d == delta * (scale - Total(list)) && b == v[a].balance + delta
    ensures Credit(v, a, delta, scale) == SetBalance(Pushed(AddOwnTo(v, a, d), list, delta), a, b)
  {
  }

  lemma CreditCoherent(v: View, a: nat, delta: int, scale: nat, limit: nat)
    requires Coherent(v, scale, limit) && a < |v| && v[a].balance + delta >= 0
    ensures Coherent(Credit(v, a, delta, scale), scale, limit)
  {
    forall x | 0 <= x < |v|
      ensures EntryCoherent(Credit(v, a, delta, scale), x, scale, limit)
    {
      assert EntryCoherent(v, x, scale, limit);
      CreditEntry(v, a, delta, scale, limit, x);
    }
  }

  /** CreditCoherent for one account. */
  lemma CreditEntry(v: View, a: nat, delta: int, scale: nat, limit: nat, x: nat)
    requires a < |v| && x < |v| && v[a].balance + delta >= 0
    requires EntryCoherent(v, x, scale, limit)
    ensures EntryCoherent(Credit(v, a, delta, scale), x, scale, limit)
  {
    CreditAt(v, a, delta, scale, x);
    CreditOwn(v, a, delta, scale, x);
    CreditReceived(v, a, delta, scale, x);
  }

  /** Credit, read one entry at a time. */
  lemma CreditAt(v: View, a: nat, delta: int, scale: nat, y: nat)
    requires a < |v| && y < |v|
    ensures Credit(v, a, delta, scale)[y].balance == if y == a then v[a].balance + delta else v[y].balance
    ensures Credit(v, a, delta, scale)[y].delegations == v[y].delegations
    ensures Credit(v, a, delta, scale)[y].own
            == if y == a then v[a].own + delta * (scale - Total(v[a].delegations)) else v[y].own
    ensures Credit(v, a, delta, scale)[y].received == v[y].received + delta * SharesTo(v[a].delegations, y)
  {
  }

  /** The own-power half of CreditEntry. */
  lemma CreditOwn(v: View, a: nat, delta: int, scale: nat, x: nat)
    requires a < |v| && x < |v|
    requires OwnMatches(v[x], scale)
    ensures OwnMatches(Credit(v, a, delta, scale)[x], scale)
  {
    CreditAt(v, a, delta, scale, x);
    if x == a {
      Distribute(scale - Total(v[a].delegations), v[a].balance, delta);
    }
  }

  /** The received-power half of CreditEntry: a's grant to x grows by delta times x's share. */
  lemma CreditReceived(v: View, a: nat, delta: int, scale: nat, x: nat)
    requires a < |v| && x < |v|
    requires ReceivedMatches(v, x)
    ensures ReceivedMatches(Credit(v, a, delta, scale), x)
  {
    var r := Credit(v, a, delta, scale);
    var list := v[a].delegations;
    forall d: nat | d < |v| && d != a
      ensures Column(Grants(v), x)(d) == Column(Grants(r), x)(d)
    {
      CreditAt(v, a, delta, scale, d);
    }
    CreditAt(v, a, delta, scale, a);
    CreditAt(v, a, delta, scale, x);
    Distribute(SharesTo(list, x), v[a].balance, delta);
    assert Column(Grants(r), x)(a) == Column(Grants(v), x)(a) + delta * SharesTo(list, x);
    SumUpdate(Column(Grants(v), x), Column(Grants(r), x), a, |v|);
  }

  /** The delegation-change cascade on a snapshot: a's list becomes `list`, which differs from
      the old one only in what it grants x; the change in percentage, times a's balance, is
      added to x's received power and taken from a's own power, in that order. */
  function Redelegate(v: View, a: nat, x: nat, list: seq<Delegation>): (r: View)
    requires a < |v| && x < |v|
    ensures |r| == |v|
  {
    var moved := Moved(v, a, x, list);
    SetDelegations(AddOwnTo(AddReceivedTo(v, x, moved), a, -moved), a, list)
  }

  /** The vote power a redelegation moves from a to x. */
  function Moved(v: View, a: nat, x: nat, list: seq<Delegation>): int
    requires a < |v|
  {
    v[a].balance * (SharesTo(list, x) - SharesTo(v[a].delegations, x))
  }

  /** Redelegate with the moved power named. */
  lemma RedelegateUnfold(v: View, a: nat, x: nat, list: seq<Delegation>, moved: int)
    requires a < |v| && x < |v| && moved == v[a].balance * (SharesTo(list, x) - SharesTo(v[a].delegations, x))
    ensures Redelegate(v, a, x, list) == SetDelegations(AddOwnTo(AddReceivedTo(v, x, moved), a, -moved), a, list)
  {
  }

  /** Redelegate, read one entry at a time. */
  lemma RedelegateAt(v: View, a: nat, x: nat, list: seq<Delegation>, y: nat)
    requires a < |v| && x < |v| && y < |v|
    ensures Redelegate(v, a, x, list)[y].balance == v[y].balance
    ensures Redelegate(v, a, x, list)[y].delegations == if y == a then list else v[y].delegations
    ensures Redelegate(v, a, x, list)[y].own == if y == a then v[a].own - Moved(v, a, x, list) else v[y].own
    ensures Redelegate(v, a, x, list)[y].received == if y == x then v[y].received + Moved(v, a, x, list) else v[y].received
  {
  }

  lemma RedelegateCoherent(v: View, a: nat, x: nat, list: seq<Delegation>, scale: nat, limit: nat)
    requires Coherent(v, scale, limit) && a < |v| && x < |v|
    requires WellFormed(list, |v|, scale, limit)
    requires forall y :: y != x ==> SharesTo(list, y) == SharesTo(v[a].delegations, y)
    requires Total(list) == Total(v[a].delegations) - SharesTo(v[a].delegations, x) + SharesTo(list, x)
    ensures Coherent(Redelegate(v, a, x, list), scale, limit)
  {
    assert EntryCoherent(v, a, scale, limit);
    forall y | 0 <= y < |v|
      ensures EntryCoherent(Redelegate(v, a, x, list), y, scale, limit)
    {
      assert EntryCoherent(v, y, scale, limit);
      RedelegateEntry(v, a, x, list, scale, limit, y);
    }
  }

  /** RedelegateCoherent for one account. */
  lemma RedelegateEntry(v: View, a: nat, x: nat, list: seq<Delegation>, scale: nat, limit: nat, y: nat)
    requires a < |v| && x < |v| && y < |v|
    requires EntryCoherent(v, y, scale, limit) && EntryCoherent(v, a, scale, limit)
    requires WellFormed(list, |v|, scale, limit)
    requires forall z :: z != x ==> SharesTo(list, z) == SharesTo(v[a].delegations, z)
    requires Total(list) == Total(v[a].delegations) - SharesTo(v[a].delegations, x) + SharesTo(list, x)
    ensures EntryCoherent(Redelegate(v, a, x, list), y, scale, limit)
  {
    RedelegateAt(v, a, x, list, y);
    RedelegateOwn(v, a, x, list, scale, y);
    RedelegateReceived(v, a, x, list, y);
  }

  /** The received-power half of RedelegateEntry: only a's grant to x changes. */
  lemma RedelegateReceived(v: View, a: nat, x: nat, list: seq<Delegation>, y: nat)
    requires a < |v| && x < |v| && y < |v|
    requires ReceivedMatches(v, y)
    requires forall z :: z != x ==> SharesTo(list, z) == SharesTo(v[a].delegations, z)
    ensures ReceivedMatches(Redelegate(v, a, x, list), y)
  {
    var r := Redelegate(v, a, x, list);
    var prev := v[a].delegations;
    RedelegateAt(v, a, x, list, y);
    RedelegateAt(v, a, x, list, a);
    forall d: nat | d < |v| && d != a
      ensures Column(Grants(v), y)(d) == Column(Grants(r), y)(d)
    {
      RedelegateAt(v, a, x, list, d);
    }
    SumUpdate(Column(Grants(v), y), Column(Grants(r), y), a, |v|);
    if y == x {
      MoveShare(v[a].balance, SharesTo(list, x), SharesTo(prev, x));
    }
  }

  /** The own-power half of RedelegateEntry. */
  lemma RedelegateOwn(v: View, a: nat, x: nat, list: seq<Delegation>, scale: nat, y: nat)
    requires a < |v| && x < |v| && y < |v|
    requires OwnMatches(v[y], scale) && OwnMatches(v[a], scale)
    requires Total(list) == Total(v[a].delegations) - SharesTo(v[a].delegations, x) + SharesTo(list, x)
    ensures OwnMatches(Redelegate(v, a, x, list)[y], scale)
  {
    var prev := v[a].delegations;
    RedelegateAt(v, a, x, list, y);
    if y == a {
      MoveShare(v[a].balance, scale - Total(prev), SharesTo(list, x) - SharesTo(prev, x));
    }
  }

  /** Adding delta to a quantity weighted by k adds delta times k. */
  lemma Distribute(k: int, b: int, delta: int)
    ensures (b + delta) * k == b * k + delta * k
    ensures k * (b + delta) == k * b + k * delta
  {
  }

  /** Moving dbp of a b-weighted quantity out of what is kept. */
  lemma MoveShare(b: int, kept: int, dbp: int)
    ensures b * kept - b * dbp == b * (kept - dbp)
  {
  }

  /** Accounts |v|..m-1 appear with no history: zero balance, no delegations, no power. */
  function Pad(v: View, m: nat): (r: View)
    requires |v| <= m
    ensures |r| == m
  {
    v + seq(m - |v|, _ => NoEntry)
  }

  lemma PadCoherent(v: View, m: nat, scale: nat, limit: nat)
    requires Coherent(v, scale, limit) && |v| <= m
    ensures Coherent(Pad(v, m), scale, limit)
  {
    var r := Pad(v, m);
    var n := |v|;
    forall x | 0 <= x < m
      ensures EntryCoherent(r, x, scale, limit)
    {
      if x < n {
        assert EntryCoherent(v, x, scale, limit);
      }
      forall d: nat | d < m
        ensures Column(Grants(r), x)(d) == if d < n then Column(Grants(v), x)(d) else 0
      {
      }
      SumPrefix(Column(Grants(r), x), n, m);
      SumExt(Column(Grants(r), x), Column(Grants(v), x), n);
      if x >= n {
        forall d: nat | d < n
          ensures Column(Grants(v), x)(d) == 0
        {
          assert EntryCoherent(v, d, scale, limit);
          SharesToAbsent(v[d].delegations, x);
        }
        SumZero(Column(Grants(v), x), n);
      }
    }
  }
}
