/** The delegation registry's list operations: an account's outgoing delegations are a short list
    of (delegatee, basis points) entries, where `scale` basis points mean 100%. */
module Delegations {
  import opened Errors
  import opened Sums

  type Account = nat

  datatype Delegation = Delegation(delegatee: Account, bp: nat)

  /** The sum of all percentages handed out by the list. */
  function Total(list: seq<Delegation>): nat
  {
    if |list| == 0 then 0 else Total(list[..|list| - 1]) + list[|list| - 1].bp
  }

  /** The percentage the list hands to account x (the sum over the entries naming x). */
  function SharesTo(list: seq<Delegation>, x: Account): nat
  {
    if |list| == 0 then 0
    else SharesTo(list[..|list| - 1], x) + (if list[|list| - 1].delegatee == x then list[|list| - 1].bp else 0)
  }

  predicate Present(list: seq<Delegation>, x: Account)
  {
    exists k :: 0 <= k < |list| && list[k].delegatee == x
  }

  /** No delegatee appears twice. */
  ghost predicate Distinct(list: seq<Delegation>)
  {
    forall i, j :: 0 <= i < j < |list| ==> list[i].delegatee != list[j].delegatee
  }

  /** The registry's invariant on one list, for a ledger that knows accounts 0..n-1: distinct
      delegatees, all known, every entry positive (a zero entry is removed), at most `limit`
      entries, and no more than 100% in all. */
  ghost predicate WellFormed(list: seq<Delegation>, n: nat, scale: nat, limit: nat)
  {
    && Distinct(list)
    && (forall k :: 0 <= k < |list| ==> 0 < list[k].bp && list[k].delegatee < n)
    && |list| <= limit
    && Total(list) <= scale
  }

  lemma {:induction false} SharesToAbsent(list: seq<Delegation>, x: Account)
    requires !Present(list, x)
    ensures SharesTo(list, x) == 0
  {
    if |list| > 0 {
      var init := list[..|list| - 1];
      assert !Present(init, x);
      SharesToAbsent(init, x);
    }
  }

  lemma {:induction false} SharesToPresent(list: seq<Delegation>, k: nat)
    requires Distinct(list) && k < |list|
    ensures SharesTo(list, list[k].delegatee) == list[k].bp
  {
    var init := list[..|list| - 1];
    var x := list[k].delegatee;
    if k == |list| - 1 {
      assert !Present(init, x);
      SharesToAbsent(init, x);
    } else {
      assert init[k] == list[k];
      SharesToPresent(init, k);
    }
  }

  /** Per account, the shares of a list add up to its total, as long as every delegatee is
      one of the accounts summed over. */
  function ShareOf(list: seq<Delegation>): nat -> int
  {
    (x: nat) => SharesTo(list, x)
  }

  lemma {:induction false} SharesSumToTotal(list: seq<Delegation>, n: nat)
    requires forall k :: 0 <= k < |list| ==> list[k].delegatee < n
    ensures Sum(ShareOf(list), n) == Total(list)
  {
    if |list| == 0 {
      SumZero(ShareOf(list), n);
    } else {
      var init := list[..|list| - 1];
      var e := list[|list| - 1];
      SharesSumToTotal(init, n);
      var single := (x: nat) => if e.delegatee == x then e.bp else 0;
      SumSingle(single, e.delegatee, n);
      SumAdd(ShareOf(init), single, ShareOf(list), n);
    }
  }

  /** Give x exactly bp: the entry for x is replaced, removed when bp is 0, or appended when
      x has none; the other entries keep their order and percentages. */
  function Assign(list: seq<Delegation>, x: Account, bp: nat): (r: seq<Delegation>)
    ensures forall k :: 0 <= k < |r| ==> r[k] in list || (r[k] == Delegation(x, bp) && bp > 0)
  {
    if |list| == 0 then
      if bp == 0 then [] else [Delegation(x, bp)]
    else
      var init := list[..|list| - 1];
      var e := list[|list| - 1];
      if e.delegatee == x then
        if bp == 0 then init else init + [Delegation(x, bp)]
      else
        Assign(init, x, bp) + [e]
  }

  /** Assign hands x exactly bp, leaves every other account's share alone, keeps delegatees
      distinct, and takes a slot only when x is new and frees one when bp is 0. */
  lemma AssignSpec(list: seq<Delegation>, x: Account, bp: nat)
    requires Distinct(list)
    ensures Distinct(Assign(list, x, bp))
    ensures SharesTo(Assign(list, x, bp), x) == bp
    ensures forall y :: y != x ==> SharesTo(Assign(list, x, bp), y) == SharesTo(list, y)
    ensures Total(Assign(list, x, bp)) + SharesTo(list, x) == Total(list) + bp
    ensures |Assign(list, x, bp)| == |list| + (if Present(list, x) then 0 else 1) - (if bp == 0 then 1 else 0)
  {
    AssignDistinct(list, x, bp);
    AssignShares(list, x, bp);
    AssignTotal(list, x, bp);
    AssignLength(list, x, bp);
  }

  lemma {:induction false} AssignShares(list: seq<Delegation>, x: Account, bp: nat)
    requires Distinct(list)
    ensures SharesTo(Assign(list, x, bp), x) == bp
    ensures forall y :: y != x ==> SharesTo(Assign(list, x, bp), y) == SharesTo(list, y)
  {
    if |list| > 0 {
      var r := Assign(list, x, bp);
      var init, e := list[..|list| - 1], list[|list| - 1];
      if e.delegatee == x {
        assert !Present(init, x);
        SharesToAbsent(init, x);
        if bp > 0 {
          assert r[..|r| - 1] == init;
        }
      } else {
        AssignShares(init, x, bp);
        assert r[..|r| - 1] == Assign(init, x, bp);
      }
    }
  }

  lemma {:induction false} AssignTotal(list: seq<Delegation>, x: Account, bp: nat)
    requires Distinct(list)
    ensures Total(Assign(list, x, bp)) + SharesTo(list, x) == Total(list) + bp
  {
    if |list| > 0 {
      var r := Assign(list, x, bp);
      var init, e := list[..|list| - 1], list[|list| - 1];
      if e.delegatee == x {
        assert !Present(init, x);
        SharesToAbsent(init, x);
        if bp > 0 {
          assert r[..|r| - 1] == init;
        }
      } else {
        AssignTotal(init, x, bp);
        assert r[..|r| - 1] == Assign(init, x, bp);
      }
    }
  }

  lemma {:induction false} AssignLength(list: seq<Delegation>, x: Account, bp: nat)
    requires Distinct(list)
    ensures |Assign(list, x, bp)| == |list| + (if Present(list, x) then 0 else 1) - (if bp == 0 then 1 else 0)
  {
    if |list| > 0 {
      var init, e := list[..|list| - 1], list[|list| - 1];
      if e.delegatee == x {
        assert !Present(init, x);
      } else {
        AssignLength(init, x, bp);
        assert Present(list, x) == Present(init, x) by {
          if Present(list, x) {
            var j :| 0 <= j < |list| && list[j].delegatee == x;
            assert j < |init| && init[j].delegatee == x;
          }
        }
      }
    }
  }

  lemma {:induction false} AssignDistinct(list: seq<Delegation>, x: Account, bp: nat)
    requires Distinct(list)
    ensures Distinct(Assign(list, x, bp))
  {
    if |list| > 0 {
      var r := Assign(list, x, bp);
      var init, e := list[..|list| - 1], list[|list| - 1];
      if e.delegatee == x {
        assert !Present(init, x);
      } else {
        var rest := Assign(init, x, bp);
        AssignDistinct(init, x, bp);
        assert forall k :: 0 <= k < |rest| ==> rest[k].delegatee != e.delegatee;
      }
    }
  }

  /** The registry's update rule: a new delegatee is refused when the list is full, and any
      change is refused when it would hand out more than 100%. */
  function SetShare(list: seq<Delegation>, x: Account, bp: nat, scale: nat, limit: nat): (r: Result<seq<Delegation>>)
    requires Distinct(list)
    ensures r.Err? <==> (bp > 0 && !Present(list, x) && |list| >= limit)
                        || Total(list) - SharesTo(list, x) + bp > scale
    ensures r.Err? ==> r.error == if bp > 0 && !Present(list, x) && |list| >= limit
                                  then DelegationLimitExceeded else DelegationPercentageExceeded
    ensures r.Ok? ==> SharesTo(r.value, x) == bp
    ensures r.Ok? ==> forall y :: y != x ==> SharesTo(r.value, y) == SharesTo(list, y)
    ensures r.Ok? ==> Total(r.value) == Total(list) - SharesTo(list, x) + bp
    ensures r.Ok? ==> Distinct(r.value) && |r.value| <= |list| + 1
    ensures r.Ok? ==> forall k :: 0 <= k < |r.value| ==> r.value[k] in list || r.value[k].delegatee == x
    ensures r.Ok? ==> forall n: nat :: WellFormed(list, n, scale, limit) && x < n ==> WellFormed(r.value, n, scale, limit)
  {
    AssignSpec(list, x, bp);
    if bp > 0 && !Present(list, x) && |list| >= limit then Err(DelegationLimitExceeded)
    else
      var next := Assign(list, x, bp);
      if Total(next) > scale then Err(DelegationPercentageExceeded) else Ok(next)
  }
}
