/** The checkpoint store: a per-key history of (index, value) pairs over a logical clock
    (the block number in the original system), with point-in-time lookup. */
module Checkpoints {

  datatype Checkpoint<V> = Checkpoint(index: nat, value: V)

  /** A history is kept in write order; well-formed histories are strictly increasing in index. */
  type History<V> = seq<Checkpoint<V>>

  ghost predicate Ordered<V>(h: History<V>)
  {
    forall i, j :: 0 <= i < j < |h| ==> h[i].index < h[j].index
  }

  /** No checkpoint lies after index c. */
  ghost predicate Bounded<V>(h: History<V>, c: nat)
  {
    forall k :: 0 <= k < |h| ==> h[k].index <= c
  }

  /** The value in force at index i: that of the last checkpoint whose index is at most i,
      or dflt when every checkpoint lies after i (in particular when there is none). */
  function ValueAt<V>(h: History<V>, i: nat, dflt: V): V
  {
    if |h| == 0 then dflt
    else if h[|h| - 1].index <= i then h[|h| - 1].value
    else ValueAt(h[..|h| - 1], i, dflt)
  }

  /** The k-th checkpoint of h, in write order. */
  function At<V>(h: History<V>, k: nat): Checkpoint<V>
    requires k < |h|
  {
    h[k]
  }

  /** v is the value in force at index i: dflt while no checkpoint lies at or before i, and
      otherwise the value of the last checkpoint that does. */
  ghost predicate InForce<V>(h: History<V>, i: nat, dflt: V, v: V)
  {
    && ((forall j: nat :: j < |h| ==> At(h, j).index > i) ==> v == dflt)
    && (forall k: nat :: k < |h| && At(h, k).index <= i && (forall j: nat :: k < j < |h| ==> At(h, j).index > i)
          ==> v == At(h, k).value)
  }

  /** ValueAt reads the value in force: the last checkpoint at or before i, and the default
      when there is none. */
  lemma {:induction false} ValueAtSpec<V>(h: History<V>, i: nat, dflt: V)
    ensures InForce(h, i, dflt, ValueAt(h, i, dflt))
  {
    if |h| > 0 {
      var last := |h| - 1;
      var init := h[..last];
      assert forall j: nat :: j < last ==> At(init, j) == At(h, j);
      if At(h, last).index > i {
        ValueAtSpec(init, i, dflt);
      }
    }
  }

  /** The most recent value, or dflt for an empty history (the constant-time read). */
  function Latest<V>(h: History<V>, dflt: V): V
  {
    if |h| == 0 then dflt else h[|h| - 1].value
  }

  /** Once the clock c has passed every checkpoint, a read at any i >= c returns the latest value. */
  lemma LatestIsCurrent<V>(h: History<V>, c: nat, i: nat, dflt: V)
    requires Bounded(h, c) && c <= i
    ensures ValueAt(h, i, dflt) == Latest(h, dflt)
  {
  }

  /** Record value v at index i: a write at the latest index replaces that checkpoint, any
      other write appends a new one. Callers never write before the latest index (the ledger
      refuses such a mutation up front). */
  function Write<V>(h: History<V>, i: nat, v: V): (r: History<V>)
    ensures |r| == if |h| > 0 && h[|h| - 1].index == i then |h| else |h| + 1
  {
    if |h| > 0 && h[|h| - 1].index == i then h[..|h| - 1] + [Checkpoint(i, v)] else h + [Checkpoint(i, v)]
  }

  /** A write at i leaves every read before i alone and makes every read from i on return v;
      made at or after the latest index, it keeps the history ordered and bounded by i. */
  lemma WriteSpec<V>(h: History<V>, i: nat, v: V, j: nat, d: V)
    ensures ValueAt(Write(h, i, v), j, d) == if j < i then ValueAt(h, j, d) else v
    ensures Bounded(h, i) && Ordered(h) ==> Ordered(Write(h, i, v))
    ensures Bounded(h, i) ==> Bounded(Write(h, i, v), i)
  {
    var r := Write(h, i, v);
    if |h| > 0 && h[|h| - 1].index == i {
      assert r[..|h| - 1] == h[..|h| - 1];
    } else {
      assert r[..|h|] == h;
    }
  }

  /** Point-in-time lookup by binary search over an ordered history. */
  method Lookup<V>(h: History<V>, i: nat, dflt: V) returns (v: V)
    requires Ordered(h)
    ensures v == ValueAt(h, i, dflt)
  {
    var lo, hi := 0, |h|;
    while lo < hi
      invariant 0 <= lo <= hi <= |h|
      invariant forall k :: 0 <= k < lo ==> h[k].index <= i
      invariant forall k :: hi <= k < |h| ==> h[k].index > i
    {
      var mid := (lo + hi) / 2;
      if h[mid].index <= i {
        lo := mid + 1;
      } else {
        hi := mid;
      }
    }
    ValueAtSpec(h, i, dflt);
    if lo == 0 {
      assert forall j: nat :: j < |h| ==> At(h, j).index > i;
      v := dflt;
    } else {
      assert At(h, lo - 1).index <= i && forall j: nat :: lo - 1 < j < |h| ==> At(h, j).index > i;
      v := h[lo - 1].value;
    }
  }

  /** Reads agree across an interval that holds no checkpoint. */
  lemma {:induction false} ValueAtSteady<V>(h: History<V>, i1: nat, i2: nat, dflt: V)
    requires i1 <= i2
    requires forall k :: 0 <= k < |h| ==> !(i1 < h[k].index <= i2)
    ensures ValueAt(h, i1, dflt) == ValueAt(h, i2, dflt)
  {
    if |h| > 0 && h[|h| - 1].index > i2 {
      ValueAtSteady(h[..|h| - 1], i1, i2, dflt);
    }
  }
}
