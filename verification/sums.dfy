/** Finite sums over the first n naturals, and the algebra the conservation proofs need. */
module Sums {

  /** f(0) + f(1) + ... + f(n-1) */
  function Sum(f: nat -> int, n: nat): int
  {
    if n == 0 then 0 else Sum(f, n - 1) + f(n - 1)
  }

  lemma {:induction false} SumExt(f: nat -> int, g: nat -> int, n: nat)
    requires forall k: nat :: k < n ==> f(k) == g(k)
    ensures Sum(f, n) == Sum(g, n)
  {
    if n > 0 {
      SumExt(f, g, n - 1);
    }
  }

  lemma {:induction false} SumZero(f: nat -> int, n: nat)
    requires forall k: nat :: k < n ==> f(k) == 0
    ensures Sum(f, n) == 0
  {
    if n > 0 {
      SumZero(f, n - 1);
    }
  }

  lemma {:induction false} SumNonneg(f: nat -> int, n: nat)
    requires forall k: nat :: k < n ==> f(k) >= 0
    ensures Sum(f, n) >= 0
  {
    if n > 0 {
      SumNonneg(f, n - 1);
    }
  }

  lemma {:induction false} SumAdd(f: nat -> int, g: nat -> int, h: nat -> int, n: nat)
    requires forall k: nat :: k < n ==> h(k) == f(k) + g(k)
    ensures Sum(h, n) == Sum(f, n) + Sum(g, n)
  {
    if n > 0 {
      SumAdd(f, g, h, n - 1);
    }
  }

  lemma {:induction false} SumSub(f: nat -> int, g: nat -> int, h: nat -> int, n: nat)
    requires forall k: nat :: k < n ==> h(k) == f(k) - g(k)
    ensures Sum(h, n) == Sum(f, n) - Sum(g, n)
  {
    if n > 0 {
      SumSub(f, g, h, n - 1);
    }
  }

  lemma {:induction false} SumScale(f: nat -> int, g: nat -> int, c: int, n: nat)
    requires forall k: nat :: k < n ==> g(k) == c * f(k)
    ensures Sum(g, n) == c * Sum(f, n)
  {
    if n > 0 {
      SumScale(f, g, c, n - 1);
    }
  }

  /** Changing one term changes the sum by exactly that term's change. */
  lemma {:induction false} SumUpdate(f: nat -> int, g: nat -> int, p: nat, n: nat)
    requires p < n
    requires forall k: nat :: k < n && k != p ==> f(k) == g(k)
    ensures Sum(g, n) == Sum(f, n) + (g(p) - f(p))
  {
    if n - 1 == p {
      SumExt(f, g, n - 1);
    } else {
      SumUpdate(f, g, p, n - 1);
    }
  }

  /** Terms at positions n..m-1 that are zero do not contribute. */
  lemma {:induction false} SumPrefix(f: nat -> int, n: nat, m: nat)
    requires n <= m
    requires forall k: nat :: n <= k < m ==> f(k) == 0
    ensures Sum(f, m) == Sum(f, n)
  {
    if m > n {
      SumPrefix(f, n, m - 1);
    }
  }

  /** A sum with a single non-zero term at position p. */
  lemma {:induction false} SumSingle(f: nat -> int, p: nat, n: nat)
    requires forall k: nat :: k < n && k != p ==> f(k) == 0
    ensures Sum(f, n) == if p < n then f(p) else 0
  {
    if n > 0 {
      SumSingle(f, p, n - 1);
    }
  }

  /** Row i of a matrix, as a function of the column. */
  function Row(m: (nat, nat) -> int, i: nat): nat -> int
  {
    (j: nat) => m(i, j)
  }

  /** Column j of a matrix, as a function of the row. */
  function Column(m: (nat, nat) -> int, j: nat): nat -> int
  {
    (i: nat) => m(i, j)
  }

  /** The totals of the rows (over the first cols columns), as a function of the row. */
  function RowTotals(m: (nat, nat) -> int, cols: nat): nat -> int
  {
    (i: nat) => Sum(Row(m, i), cols)
  }

  /** The totals of the columns (over the first rows rows), as a function of the column. */
  function ColumnTotals(m: (nat, nat) -> int, rows: nat): nat -> int
  {
    (j: nat) => Sum(Column(m, j), rows)
  }

  /** Summing a matrix by rows or by columns gives the same total. */
  lemma {:induction false} SumSwap(m: (nat, nat) -> int, rows: nat, cols: nat)
    ensures Sum(RowTotals(m, cols), rows) == Sum(ColumnTotals(m, rows), cols)
  {
    if rows > 0 {
      var r := rows - 1;
      SumSwap(m, r, cols);
      forall j: nat | j < cols
        ensures ColumnTotals(m, rows)(j) == ColumnTotals(m, r)(j) + Row(m, r)(j)
      {
        assert Sum(Column(m, j), rows) == Sum(Column(m, j), r) + Column(m, j)(r);
      }
      SumAdd(ColumnTotals(m, r), Row(m, r), ColumnTotals(m, rows), cols);
    } else {
      SumZero(ColumnTotals(m, rows), cols);
    }
  }
}
