/** Stable sorting of numbers by a key: insertion from the back, and uniqueness of the result. */
module StableSort {
  /** Smaller key, or the same key and the smaller number. */
  predicate Earlier(keys: seq<int>, a: nat, b: nat) {
    a < |keys| && b < |keys| && (keys[a] < keys[b] || (keys[a] == keys[b] && a < b))
  }

  /** Those of the first `n` numbers whose key is at least `least`, stably sorted by key. */
  function SortedByKey(keys: seq<int>, n: nat, least: int): (order: seq<nat>)
    requires n <= |keys|
    ensures forall r: nat :: r in order <==> r < n && keys[r] >= least
  {
    if n == 0 then []
    else
      var before := SortedByKey(keys, n - 1, least);
      assert forall i | 0 <= i < |before| :: before[i] in before;
      if keys[n - 1] >= least then Place(keys, before, n - 1) else before
  }

  /** `r` goes behind everything whose key is not larger. */
  function Place(keys: seq<int>, order: seq<nat>, r: nat): (s: seq<nat>)
    requires r < |keys| && forall i | 0 <= i < |order| :: order[i] < |keys|
    ensures forall o: nat :: o in s <==> o == r || o in order
  {
    if order == [] then [r]
    else
      assert forall o: nat :: o in order <==> o in order[..|order| - 1] || o == order[|order| - 1];
      if keys[order[|order| - 1]] <= keys[r] then order + [r]
      else Place(keys, order[..|order| - 1], r) + [order[|order| - 1]]
  }

  ghost predicate Ranked(order: seq<nat>, keys: seq<int>) {
    forall i, j | 0 <= i < j < |order| :: Earlier(keys, order[i], order[j])
  }

  lemma {:induction false} PlaceRanked(keys: seq<int>, order: seq<nat>, r: nat)
    requires r < |keys| && forall i | 0 <= i < |order| :: order[i] < r
    requires Ranked(order, keys)
    ensures Ranked(Place(keys, order, r), keys)
  {
    if order != [] {
      var front, last := order[..|order| - 1], order[|order| - 1];
      if keys[last] <= keys[r] {
        forall i | 0 <= i < |order| ensures Earlier(keys, order[i], r) {
          assert (i < |order| - 1 ==> Earlier(keys, order[i], last));
        }
      } else {
        PlaceRanked(keys, front, r);
        var placed := Place(keys, front, r);
        forall i | 0 <= i < |placed| ensures Earlier(keys, placed[i], last) {
          assert placed[i] in placed;
          if placed[i] != r {
            var j :| 0 <= j < |front| && front[j] == placed[i];
            assert Earlier(keys, order[j], order[|order| - 1]);
          }
        }
      }
    }
  }

  lemma NoneRanked(keys: seq<int>)
    ensures Ranked([], keys)
  {
  }

  lemma {:induction false} SortedRanked(keys: seq<int>, n: nat, least: int)
    requires n <= |keys|
    ensures Ranked(SortedByKey(keys, n, least), keys)
  {
    hide Place, Ranked;
    assert n == 0 ==> Ranked(SortedByKey(keys, n, least), keys) by { NoneRanked(keys); }
    if n > 0 {
      SortedRanked(keys, n - 1, least);
      var before := SortedByKey(keys, n - 1, least);
      assert forall i | 0 <= i < |before| :: before[i] in before;
      if keys[n - 1] >= least { PlaceRanked(keys, SortedByKey(keys, n - 1, least), n - 1); }
    }
  }

  lemma {:induction false} RankedOnce(a: seq<nat>, b: seq<nat>, keys: seq<int>)
    requires Ranked(a, keys) && Ranked(b, keys) && forall o :: o in a <==> o in b
    ensures a == b
  {
    assert (a != [] ==> a[0] in a) && (b != [] ==> b[0] in b);
    if a != [] && b != [] {
      assert a[0] in a && b[0] in b;
      FirstIsLeast(b, keys, a[0]);
      FirstIsLeast(a, keys, b[0]);
      forall o ensures o in a[1..] <==> o in b[1..] {
        assert o in a <==> o == a[0] || o in a[1..];
        assert o in b <==> o == b[0] || o in b[1..];
        if o in a[1..] { NotAgain(a, keys, o); }
        if o in b[1..] { NotAgain(b, keys, o); }
      }
      RankedOnce(a[1..], b[1..], keys);
      assert a == [a[0]] + a[1..] && b == [b[0]] + b[1..];
    }
  }

  lemma FirstIsLeast(a: seq<nat>, keys: seq<int>, o: nat)
    requires Ranked(a, keys) && o in a
    ensures o == a[0] || Earlier(keys, a[0], o)
  {
  }

  lemma NotAgain(a: seq<nat>, keys: seq<int>, o: nat)
    requires Ranked(a, keys) && a != [] && o in a[1..]
    ensures o != a[0]
  {
    var i :| 0 <= i < |a[1..]| && a[1..][i] == o;
    assert Earlier(keys, a[0], a[i + 1]);
  }
}
