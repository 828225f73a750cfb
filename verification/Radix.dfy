/** Flat indexing of multi-dimensional tensors, and the iteration spaces of parallel loops. */
module Radix {
  import opened Arithmetic

  /** First element of row r of a table with rows of length n. */
  function RowStart(r: nat, n: nat): nat {
    r * n
  }

  /** Distinct rows of a table with row length n do not overlap. */
  lemma RowsDisjoint(r: nat, r': nat, n: nat)
    requires r != r'
    ensures RowStart(r, n) + n <= RowStart(r', n) || RowStart(r', n) + n <= RowStart(r, n)
  {
    if r < r' {
      assert (r + 1) * n <= r' * n;
    } else {
      assert (r' + 1) * n <= r * n;
    }
  }

  /** Flat row index of (s, h): injective for h below the number of heads. */
  lemma RowUnique(s: nat, h: nat, s': nat, h': nat, n: nat)
    requires h < n && h' < n && (s != s' || h != h')
    ensures s * n + h != s' * n + h'
  {
    if s != s' {
      RowsDisjoint(s, s', n);
    }
  }

  lemma RowBound(r: nat, rows: nat, n: nat)
    requires r < rows
    ensures RowStart(r, n) + n <= rows * n
  {
    assert (r + 1) * n <= rows * n;
  }

  /** Row r, column c of a table with n columns, and the coordinates of a flat index. */
  function Flat(r: nat, c: nat, n: nat): nat {
    r * n + c
  }

  function Quo(a: nat, n: nat): nat
    requires 0 < n
  {
    a / n
  }

  function Rem(a: nat, n: nat): (r: nat)
    requires 0 < n
    ensures r < n
  {
    a % n
  }

  /** Both coordinates can be read back from a flat index. */
  lemma Coordinates(r: nat, c: nat, n: nat)
    requires c < n
    ensures Quo(Flat(r, c, n), n) == r && Rem(Flat(r, c, n), n) == c
  {
    QuotientUnique(r * n + c, n, r, c);
  }

  /** A number is rebuilt from its quotient and remainder. */
  lemma Rebuild(a: nat, n: nat)
    requires 0 < n
    ensures Flat(Quo(a, n), Rem(a, n), n) == a
  {
  }

  /** Quotients of a multiple of n bound the quotients below it. */
  lemma QuoBelow(a: nat, b: nat, n: nat)
    requires 0 < n && a < b && b % n == 0
    ensures Quo(a, n) < Quo(b, n) && Quo(b, n) * n == b
  {
    assert (b / n - a / n) * n == b - a / n * n > 0;
  }

  /** Coordinates of an index below the size of its table are within the table. */
  lemma QuoInTable(a: nat, rows: nat, n: nat)
    requires 0 < n && a < rows * n
    ensures Quo(a, n) < rows
  {
    assert (rows - a / n) * n == rows * n - a / n * n > 0;
  }

  /** A flat index stays below the size of its table. */
  lemma FlatBelow(r: nat, rows: nat, c: nat, n: nat)
    requires r < rows && c < n
    ensures Flat(r, c, n) < rows * n
  {
    RowBound(r, rows, n);
  }

  /** Every work item (s, h) of a parallel loop, exactly once and in any order. */
  ghost predicate IsSchedule(items: seq<(nat, nat)>, n: nat, m: nat) {
    && (forall k :: 0 <= k < |items| ==> items[k].0 < n && items[k].1 < m)
    && (forall k, k' :: 0 <= k < k' < |items| ==> items[k] != items[k'])
    && (forall s: nat, h: nat :: s < n && h < m ==> (s, h) in items)
  }
}
