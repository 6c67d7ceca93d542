/** The bounded least-recently-used tables behind route screening and route validation. */
module RecencyCache {
  import opened Counting

  /** Tables are keyed by routes. */
  type Route = seq<nat>

  /** The distinct keys of a history, the most recent last. */
  function ByRecency(history: seq<Route>): (r: seq<Route>)
    ensures forall k :: k in r <==> k in history
    ensures Distinct(r)
  {
    if history == [] then []
    else
      var last := history[|history| - 1];
      var front := ByRecency(history[..|history| - 1]);
      assert forall k :: k in history <==> k in history[..|history| - 1] || k == last;
      Dropped(front, last) + [last]
  }

  function Dropped(keys: seq<Route>, key: Route): (r: seq<Route>)
    requires Distinct(keys)
    ensures forall k :: k in r <==> k in keys && k != key
    ensures Distinct(r)
    ensures |r| == |keys| - if key in keys then 1 else 0
  {
    if keys == [] then []
    else
      var n := |keys| - 1;
      assert forall k :: k in keys <==> k in keys[..n] || k == keys[n];
      assert keys[n] !in keys[..n];
      if keys[n] == key then keys[..n]
      else
        var front := Dropped(keys[..n], key);
        assert forall i | 0 <= i < |front| :: front[i] in front;
        front + [keys[n]]
  }

  function LastOf(s: seq<Route>, n: nat): (r: seq<Route>) {
    if |s| <= n then s else s[|s| - n..]
  }

  /** A key among the last ones moves to the end; nothing else changes. */
  lemma MovedLast(recent: seq<Route>, i: nat, n: nat)
    requires Distinct(recent) && n > 0 && i < |LastOf(recent, n)|
    ensures var keys := LastOf(recent, n);
      LastOf(Dropped(recent, keys[i]) + [keys[i]], n) == keys[..i] + keys[i + 1..] + [keys[i]]
  {
    hide Dropped, LastOf;
    var shift := if |recent| <= n then 0 else |recent| - n;
    CutAt(recent, n);
    DroppedAt(recent, shift + i);
    CutBefore(recent, shift, i, n);
  }

  lemma CutAt(s: seq<Route>, n: nat)
    ensures LastOf(s, n) == s[if |s| <= n then 0 else |s| - n..]
  {
  }

  lemma CutBefore(recent: seq<Route>, shift: nat, i: nat, n: nat)
    requires shift + i < |recent| && n > 0 && shift == (if |recent| <= n then 0 else |recent| - n)
    ensures var keys := recent[shift..];
      LastOf(recent[..shift + i] + recent[shift + i + 1..] + [recent[shift + i]], n) == keys[..i] + keys[i + 1..] + [keys[i]]
  {
    hide LastOf;
    var keys := recent[shift..];
    var moved := recent[..shift + i] + recent[shift + i + 1..] + [recent[shift + i]];
    assert moved == recent[..shift] + (keys[..i] + keys[i + 1..] + [keys[i]]);
    CutAt(moved, n);
  }

  class LruMemo<V> {
    const capacity: nat
    const compute: Route -> V
    var entries: seq<(Route, V)>
    var hits: nat
    var misses: nat
    var evictions: nat
    ghost var history: seq<Route>

    function Keys(): (r: seq<Route>)
      reads this
      ensures |r| == |entries| && forall i | 0 <= i < |r| :: r[i] == entries[i].0
    {
      seq(|entries|, i requires 0 <= i < |entries| reads this => entries[i].0)
    }

    /** The table holds the last distinct keys asked for, as many as fit, each with its computed value. */
    ghost predicate Valid()
      reads this
    {
      && capacity > 0 && Keys() == LastOf(ByRecency(history), capacity)
      && (forall i | 0 <= i < |entries| :: entries[i].1 == compute(entries[i].0))
      && hits + misses == |history| && evictions + |entries| == misses
    }

    constructor (capacity: nat, compute: Route -> V)
      requires capacity > 0
      ensures Valid() && history == [] && this.capacity == capacity && this.compute == compute
    {
      this.capacity := capacity;
      this.compute := compute;
      entries, hits, misses, evictions, history := [], 0, 0, 0, [];
      new;
      assert Keys() == [];
    }

    /** Answers like the computation itself, and counts a hit exactly when the key was among the last ones. */
    method Resolve(key: Route) returns (value: V)
      requires Valid()
      modifies this
      ensures Valid() && value == compute(key) && history == old(history) + [key]
      ensures hits == old(hits) + if key in LastOf(ByRecency(old(history)), capacity) then 1 else 0
      ensures |entries| <= capacity
    {
      hide ByRecency, Dropped, LastOf;
      var i := 0;
      while i < |entries| && entries[i].0 != key
        invariant 0 <= i <= |entries| && forall j | 0 <= j < i :: entries[j].0 != key
      {
        i := i + 1;
      }
      ghost var keys := Keys();
      RecencyStep(history, key);
      KeysFit(history, capacity);
      if i < |entries| {
        value := entries[i].1;
        assert keys[i] == key;
        MovedLast(ByRecency(history), i, capacity);
        entries := entries[..i] + entries[i + 1..] + [(key, value)];
        hits := hits + 1;
        assert Keys() == keys[..i] + keys[i + 1..] + [key];
      } else {
        assert key !in keys;
        value := compute(key);
        misses := misses + 1;
        NewLast(ByRecency(history), key, capacity);
        entries := entries + [(key, value)];
        assert Keys() == keys + [key];
        if |entries| > capacity {
          entries := entries[1..];
          evictions := evictions + 1;
          assert Keys() == (keys + [key])[1..];
        }
      }
      history := history + [key];
    }
  }

  lemma RecencyStep(history: seq<Route>, key: Route)
    ensures ByRecency(history + [key]) == Dropped(ByRecency(history), key) + [key]
  {
    assert (history + [key])[..|history|] == history;
  }

  lemma KeysFit(history: seq<Route>, n: nat)
    ensures |LastOf(ByRecency(history), n)| <= n
  {
  }

  lemma {:induction false} DroppedAt(keys: seq<Route>, i: nat)
    requires Distinct(keys) && i < |keys|
    ensures Dropped(keys, keys[i]) == keys[..i] + keys[i + 1..]
  {
    var n := |keys| - 1;
    if i < n {
      DroppedAt(keys[..n], i);
      assert keys[..i] + keys[i + 1..] == keys[..n][..i] + keys[..n][i + 1..] + [keys[n]];
    } else {
      assert keys[..i] + keys[i + 1..] == keys[..n];
    }
  }

  /** A key that is not among the last ones pushes the oldest of them out. */
  lemma NewLast(recent: seq<Route>, key: Route, n: nat)
    requires Distinct(recent) && n > 0 && key !in LastOf(recent, n)
    ensures LastOf(Dropped(recent, key) + [key], n)
      == if |LastOf(recent, n)| < n then LastOf(recent, n) + [key] else (LastOf(recent, n) + [key])[1..]
  {
    hide Dropped;
    if key in recent {
      var front := recent[..|recent| - |LastOf(recent, n)|];
      assert recent == front + LastOf(recent, n);
      var i :| 0 <= i < |front| && front[i] == key;
      DroppedAt(recent, i);
    } else {
      NotDropped(recent, key);
    }
  }

  lemma {:induction false} NotDropped(keys: seq<Route>, key: Route)
    requires Distinct(keys) && key !in keys
    ensures Dropped(keys, key) == keys
  {
    if keys != [] { NotDropped(keys[..|keys| - 1], key); }
  }
}
