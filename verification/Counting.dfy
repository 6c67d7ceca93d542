/** Small counting facts: powers, distinct bounded sequences, row-major indices. */
module Counting {
  function Pow(b: nat, n: nat): (r: nat)
    ensures b >= 1 ==> r >= 1
  {
    if n == 0 then 1 else b * Pow(b, n - 1)
  }

  predicate Distinct<T(==)>(s: seq<T>) {
    forall i, j | 0 <= i < j < |s| :: s[i] != s[j]
  }

  /** Distinct numbers below a bound are no more than the bound. */
  lemma {:induction false} Pigeonhole(s: seq<nat>, bound: nat)
    requires Distinct(s) && forall i | 0 <= i < |s| :: s[i] < bound
    ensures |s| <= bound
  {
    if s == [] {
      return;
    }
    assert s[0] < bound;
    if bound - 1 in s {
      var k :| 0 <= k < |s| && s[k] == bound - 1;
      var t := s[..k] + s[k + 1..];
      assert forall i | 0 <= i < |t| :: t[i] == s[if i < k then i else i + 1];
      Pigeonhole(t, bound - 1);
    } else {
      Pigeonhole(s, bound - 1);
    }
  }

  /** `n` rows of `width`, by repeated addition: keeps products out of everything built on row-major indices. */
  function Rows(n: nat, width: nat): nat {
    if n == 0 then 0 else Rows(n - 1, width) + width
  }

  lemma {:induction false} RowsIsProduct(n: nat, width: nat)
    ensures Rows(n, width) == n * width
  {
    if n > 0 {
      RowsIsProduct(n - 1, width);
      assert n * width == (n - 1) * width + width;
    }
  }

  function RowMajor(row: nat, column: nat, width: nat): nat {
    Rows(row, width) + column
  }

  lemma RowMajorBound(row: nat, column: nat, rows: nat, width: nat)
    requires row < rows && column < width
    ensures RowMajor(row, column, width) < Rows(rows, width)
  {
    RowsApart(row, rows, width);
  }

  lemma RowMajorInjective(r: nat, c: nat, r': nat, c': nat, width: nat)
    requires c < width && c' < width && RowMajor(r, c, width) == RowMajor(r', c', width)
    ensures r == r' && c == c'
  {
    if r < r' {
      RowsApart(r, r', width);
    } else if r' < r {
      RowsApart(r', r, width);
    }
  }

  lemma {:induction false} RowsApart(r: nat, r': nat, width: nat)
    requires r < r'
    ensures Rows(r, width) + width <= Rows(r', width)
  {
    if r < r' - 1 { RowsApart(r, r' - 1, width); }
  }
}
