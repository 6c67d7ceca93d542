/** Splitting `n` items into `count` contiguous chunks of nearly equal size: quotient and remainder. */
module Partition {
  /** Where chunk `c` begins, in closed form. */
  function First(n: nat, count: nat, c: nat): nat
    requires count > 0
  {
    c * (n / count) + if c < n % count then c else n % count
  }

  function Size(n: nat, count: nat, c: nat): nat
    requires count > 0
  {
    n / count + if c < n % count then 1 else 0
  }

  /** The chunks are adjacent, cover everything once, and differ by at most one item; none is empty when there are
      no more chunks than items. */
  lemma ChunksAdjacent(n: nat, count: nat, c: nat)
    requires 0 < count && c < count
    ensures First(n, count, 0) == 0 && First(n, count, c + 1) == First(n, count, c) + Size(n, count, c)
    ensures First(n, count, count) == n
    ensures count <= n ==> Size(n, count, c) >= 1
    ensures forall d | 0 <= d <= c :: Size(n, count, c) <= Size(n, count, d) <= Size(n, count, c) + 1
  {
    assert (c + 1) * (n / count) == c * (n / count) + n / count;
    assert count * (n / count) + n % count == n;
    if count <= n { QuotientPositive(n, count); }
  }

  lemma QuotientPositive(n: nat, count: nat)
    requires 0 < count <= n
    ensures n / count >= 1
  {
    assert n == count * (n / count) + n % count && n % count < count;
  }

  lemma {:induction false} FirstMonotone(n: nat, count: nat, c: nat, c': nat)
    requires 0 < count && c <= c' <= count
    ensures First(n, count, c) <= First(n, count, c') <= n
    decreases count - c
  {
    ChunksAdjacent(n, count, 0);
    if c < c' {
      ChunksAdjacent(n, count, c);
      FirstMonotone(n, count, c + 1, c');
    } else if c < count {
      ChunksAdjacent(n, count, c);
      FirstMonotone(n, count, c + 1, count);
    }
  }

  /** Every item lies in exactly one chunk. */
  lemma {:induction false} InOneChunk(n: nat, count: nat, i: nat, c: nat, d: nat)
    requires 0 < count && c < count && d < count
    requires First(n, count, c) <= i < First(n, count, c + 1) && First(n, count, d) <= i < First(n, count, d + 1)
    ensures c == d
  {
    if c < d {
      FirstMonotone(n, count, c + 1, d);
    } else if d < c {
      FirstMonotone(n, count, d + 1, c);
    }
  }

  lemma {:induction false} InSomeChunk(n: nat, count: nat, upto: nat, i: nat) returns (c: nat)
    requires 0 < count && upto <= count && i < First(n, count, upto)
    ensures c < upto && First(n, count, c) <= i < First(n, count, c + 1)
  {
    ChunksAdjacent(n, count, 0);
    if First(n, count, upto - 1) <= i {
      c := upto - 1;
    } else {
      c := InSomeChunk(n, count, upto - 1, i);
    }
  }

  /** The loop that lays the chunks out. */
  method ContiguousChunks(n: nat, workers: nat) returns (chunks: seq<(nat, nat)>)
    requires n > 0 && workers > 0
    ensures |chunks| == if workers < n then workers else n
    ensures forall c | 0 <= c < |chunks| :: chunks[c] == (First(n, |chunks|, c), First(n, |chunks|, c + 1))
    ensures chunks[0].0 == 0 && chunks[|chunks| - 1].1 == n
    ensures forall c | 0 <= c < |chunks| :: chunks[c].0 < chunks[c].1
  {
    var count := if workers < n then workers else n;
    var quotient, remainder := n / count, n % count;
    var offset := 0;
    chunks := [];
    ChunksAdjacent(n, count, 0);
    for c := 0 to count
      invariant |chunks| == c && offset == First(n, count, c)
      invariant forall b | 0 <= b < c :: chunks[b] == (First(n, count, b), First(n, count, b + 1)) && chunks[b].0 < chunks[b].1
    {
      ChunksAdjacent(n, count, c);
      var size := quotient + if c < remainder then 1 else 0;
      chunks := chunks + [(offset, offset + size)];
      offset := offset + size;
    }
  }
}
