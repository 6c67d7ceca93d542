/** The lexicographically smallest order of all activities that respects precedence. */
module TopologicalOrder {
  import opened Options
  import opened Counting

  /** The direct predecessors of every activity; all of them are activities. */
  type Graph = map<nat, set<nat>>

  ghost predicate ClosedGraph(g: Graph) {
    forall a, b | a in g && b in g[a] :: b in g
  }

  /** All activities, each once, every one behind its predecessors. */
  ghost predicate Topological(g: Graph, order: seq<nat>) {
    && Distinct(order) && (forall a :: a in order <==> a in g)
    && (forall i | 0 <= i < |order| :: PredecessorsBefore(g, order, i))
  }

  predicate PredecessorsBefore(g: Graph, order: seq<nat>, i: nat)
    requires i < |order|
  {
    order[i] in g && forall b | b in g[order[i]] :: b in order[..i]
  }

  /** `a` is `b` or smaller at the first difference. */
  ghost predicate NotAfter(a: seq<nat>, b: seq<nat>) { a == b || exists i: nat :: SmallerAt(a, b, i) }

  predicate SmallerAt(a: seq<nat>, b: seq<nat>, i: nat) {
    i < |a| && i < |b| && a[..i] == b[..i] && a[i] < b[i]
  }

  /** A closed walk along predecessors. */
  ghost predicate Cycle(g: Graph, walk: seq<nat>) {
    && |walk| >= 2 && walk[0] == walk[|walk| - 1]
    && Walk(g, walk)
  }

  ghost predicate Walk(g: Graph, walk: seq<nat>) {
    (forall i | 0 <= i < |walk| :: walk[i] in g) && forall i, j | 0 <= i && j == i + 1 < |walk| :: walk[j] in g[walk[i]]
  }

  /** What is left: unplaced activities with their unplaced predecessors. */
  ghost predicate Left(g: Graph, order: seq<nat>, remaining: map<nat, set<nat>>) {
    && (forall a :: a in remaining <==> a in g && a !in order)
    && (forall a | a in remaining :: remaining[a] == set b | b in g[a] && b !in order)
  }

  /** Placed activities are as in any topological order, or the order placed is smaller. */
  ghost predicate SmallestSoFar(g: Graph, order: seq<nat>) {
    forall t | Topological(g, t) ::
      order <= t || exists i: nat :: SmallerAt(order, t, i)
  }

  /** An activity taken out, and out of everybody's predecessors. */
  function Discard(remaining: map<nat, set<nat>>, ready: nat): (rest: map<nat, set<nat>>)
    ensures rest.Keys == remaining.Keys - {ready}
    ensures forall a | a in rest :: rest[a] == remaining[a] - {ready}
  {
    map a | a in remaining && a != ready :: remaining[a] - {ready}
  }

  /** The smallest activity without unplaced predecessors. */
  method SmallestReady(remaining: map<nat, set<nat>>) returns (ready: Option<nat>)
    ensures ready.None? <==> forall a | a in remaining :: remaining[a] != {}
    ensures ready.Some? ==> ready.value in remaining && remaining[ready.value] == {}
    ensures ready.Some? ==> forall a | a in remaining && remaining[a] == {} :: ready.value <= a
  {
    ready := None;
    var todo := remaining.Keys;
    while todo != {}
      invariant todo <= remaining.Keys
      invariant ready.None? ==> forall a | a in remaining && a !in todo :: remaining[a] != {}
      invariant ready.Some? ==> ready.value in remaining && remaining[ready.value] == {}
      invariant ready.Some? ==> forall a | a in remaining && a !in todo && remaining[a] == {} :: ready.value <= a
      decreases todo
    {
      var a :| a in todo;
      todo := todo - {a};
      if remaining[a] == {} && (ready.None? || a < ready.value) {
        ready := Some(a);
      }
    }
  }

  /** The construction: take the smallest ready activity again and again.  It gives the smallest topological order, and
      fails exactly on a cycle. */
  method SmallestOrder(g: Graph) returns (r: Option<seq<nat>>)
    requires ClosedGraph(g)
    ensures r.Some? ==> Topological(g, r.value)
    ensures r.Some? ==> forall t | Topological(g, t) :: NotAfter(r.value, t)
    ensures r.None? <==> exists walk :: Cycle(g, walk)
  {
    hide SmallestSoFar, Topological, Cycle, Left, Placed, ClosedGraph, NotAfter;
    var remaining := g;
    var order: seq<nat> := [];
    StartSmallest(g);
    while remaining != map[]
      invariant Left(g, order, remaining) && Placed(g, order) && SmallestSoFar(g, order)
      decreases remaining.Keys
    {
      var ready := SmallestReady(remaining);
      if ready.None? {
        StuckHasCycle(g, order, remaining);
        return None;
      }
      PlaceNext(g, order, remaining, ready.value);
      order := order + [ready.value];
      remaining := Discard(remaining, ready.value);
    }
    PlacedAll(g, order, remaining);
    NoCycle(g, order);
    return Some(order);
  }

  /** Distinct activities, each behind its predecessors. */
  ghost predicate Placed(g: Graph, order: seq<nat>) {
    Distinct(order) && forall i | 0 <= i < |order| :: PredecessorsBefore(g, order, i)
  }

  lemma StartSmallest(g: Graph)
    ensures SmallestSoFar(g, []) && Left(g, [], g) && Placed(g, [])
  {
    assert forall a | a in g :: g[a] == set b | b in g[a] && b !in [];
  }

  lemma PlaceNext(g: Graph, order: seq<nat>, remaining: map<nat, set<nat>>, ready: nat)
    requires ClosedGraph(g) && Left(g, order, remaining) && Placed(g, order) && SmallestSoFar(g, order)
    requires ready in remaining && remaining[ready] == {} && forall a | a in remaining && remaining[a] == {} :: ready <= a
    ensures Placed(g, order + [ready]) && SmallestSoFar(g, order + [ready])
    ensures Left(g, order + [ready], Discard(remaining, ready))
  {
    var next := order + [ready];
    assert forall b | b in g[ready] :: b !in order ==> b in remaining[ready];
    forall i | 0 <= i < |next| ensures PredecessorsBefore(g, next, i) {
      assert next[..i] == if i < |order| then order[..i] else order;
      if i < |order| { assert PredecessorsBefore(g, order, i); }
    }
    forall t | Topological(g, t)
      ensures next <= t || exists i: nat :: SmallerAt(next, t, i)
    {
      NextIsSmallest(g, order, remaining, ready, t);
    }
  }

  lemma NextIsSmallest(g: Graph, order: seq<nat>, remaining: map<nat, set<nat>>, ready: nat, t: seq<nat>)
    requires Left(g, order, remaining) && SmallestSoFar(g, order) && Topological(g, t) && Distinct(order + [ready])
    requires ready in remaining && remaining[ready] == {} && forall a | a in remaining && remaining[a] == {} :: ready <= a
    ensures var next := order + [ready];
      next <= t || exists i: nat :: SmallerAt(next, t, i)
  {
    hide Topological, Left;
    var next, n := order + [ready], |order|;
    if order <= t {
      NextInOrder(g, order, remaining, ready, t);
      assert next[..n] == t[..n] && next[n] == ready <= t[n];
      if ready == t[n] { assert next == t[..n + 1]; } else { assert SmallerAt(next, t, n); }
    } else {
      var i: nat :| SmallerAt(order, t, i);
      assert next[..i] == order[..i] && SmallerAt(next, t, i);
    }
  }

  /** The activity a topological order places next is ready. */
  lemma NextInOrder(g: Graph, order: seq<nat>, remaining: map<nat, set<nat>>, ready: nat, t: seq<nat>)
    requires Left(g, order, remaining) && Topological(g, t) && order <= t && ready in remaining
    ensures |order| < |t| && t[..|order|] == order && t[|order|] in remaining && remaining[t[|order|]] == {}
  {
    var n := |order|;
    assert ready in t && t[..n] == order;
    assert ready in t[n..] by { assert t == t[..n] + t[n..]; }
    var a := t[n];
    assert a in t && PredecessorsBefore(g, t, n);
    assert forall i | 0 <= i < n :: order[i] == t[i] != a;
  }

  lemma PlacedAll(g: Graph, order: seq<nat>, remaining: map<nat, set<nat>>)
    requires Left(g, order, remaining) && Placed(g, order) && SmallestSoFar(g, order) && remaining == map[]
    ensures Topological(g, order) && forall t | Topological(g, t) :: NotAfter(order, t)
  {
    forall a ensures a in order <==> a in g {
      assert a in remaining <==> a in g && a !in order;
      if a in order { var i :| 0 <= i < |order| && order[i] == a; assert PredecessorsBefore(g, order, i); }
    }
    forall t | Topological(g, t) ensures NotAfter(order, t) {
      if order <= t {
        assert |t| == |order| by { SameLength(order, t); }
        assert t[..|order|] == t;
      }
    }
  }

  lemma SameLength(a: seq<nat>, b: seq<nat>)
    requires a <= b && Distinct(b) && forall x :: x in a <==> x in b
    ensures |a| == |b|
  {
    if |a| < |b| { LongerHasMore(a, b); }
  }

  lemma LongerHasMore(a: seq<nat>, b: seq<nat>)
    requires a <= b && Distinct(b) && |a| < |b|
    ensures b[|a|] in b && b[|a|] !in a
  {
    assert forall i | 0 <= i < |a| :: a[i] == b[i];
  }

  /** A topological order leaves no room for a cycle: positions fall along it. */
  lemma {:induction false} WalkFalls(g: Graph, order: seq<nat>, walk: seq<nat>, i: nat, j: nat, at: nat, to: nat)
    requires Topological(g, order) && Walk(g, walk) && i < j < |walk|
    requires at < |order| && order[at] == walk[i] && to < |order| && order[to] == walk[j]
    ensures to < at
    decreases j - i
  {
    assert PredecessorsBefore(g, order, at);
    if j == i + 1 {
      assert walk[j] in g[walk[i]];
      var k :| 0 <= k < at && order[..at][k] == walk[j];
      assert order[k] == order[to];
    } else {
      assert walk[j - 1] in order;
      var mid :| 0 <= mid < |order| && order[mid] == walk[j - 1];
      WalkFalls(g, order, walk, i, j - 1, at, mid);
      WalkFalls(g, order, walk, j - 1, j, mid, to);
    }
  }

  lemma NoCycle(g: Graph, order: seq<nat>)
    requires Topological(g, order)
    ensures !exists walk :: Cycle(g, walk)
  {
    forall walk | Cycle(g, walk) ensures false {
      assert walk[0] in order;
      var at :| 0 <= at < |order| && order[at] == walk[0];
      WalkFalls(g, order, walk, 0, |walk| - 1, at, at);
    }
  }

  /** When every activity left has a predecessor left, following predecessors closes a cycle. */
  lemma StuckHasCycle(g: Graph, order: seq<nat>, remaining: map<nat, set<nat>>)
    requires ClosedGraph(g) && Left(g, order, remaining) && remaining != map[] && forall a | a in remaining :: remaining[a] != {}
    ensures exists walk :: Cycle(g, walk)
  {
    hide Left, ClosedGraph;
    var a :| a in remaining;
    var walk := LongWalk(g, order, remaining, a, |remaining|);
    var i, j := Repeats(walk, remaining.Keys);
    assert Cycle(g, walk[i..j + 1]) by { SubWalk(g, walk, i, j + 1); }
  }

  lemma SubWalk(g: Graph, walk: seq<nat>, i: nat, j: nat)
    requires Walk(g, walk) && i < j <= |walk|
    ensures Walk(g, walk[i..j])
  {
    var part := walk[i..j];
    forall k, l | 0 <= k && l == k + 1 < |part| ensures part[l] in g[part[k]] {
      assert part[k] == walk[i + k] && part[l] == walk[i + l];
    }
  }

  lemma {:induction false} LongWalk(g: Graph, order: seq<nat>, remaining: map<nat, set<nat>>, a: nat, n: nat) returns (walk: seq<nat>)
    requires ClosedGraph(g) && Left(g, order, remaining) && a in remaining && forall b | b in remaining :: remaining[b] != {}
    ensures |walk| == n + 1 && Walk(g, walk) && forall i | 0 <= i < |walk| :: walk[i] in remaining
  {
    if n == 0 {
      walk := [a];
    } else {
      var front := LongWalk(g, order, remaining, a, n - 1);
      var b :| b in remaining[front[n - 1]];
      assert b in g[front[n - 1]] && b in remaining;
      walk := front + [b];
    }
  }

  /** A sequence longer than the set it draws from repeats something. */
  lemma {:induction false} Repeats(s: seq<nat>, from: set<nat>) returns (i: nat, j: nat)
    requires |s| > |from| && forall k | 0 <= k < |s| :: s[k] in from
    ensures i < j < |s| && s[i] == s[j]
  {
    var last := s[|s| - 1];
    if k :| 0 <= k < |s| - 1 && s[k] == last {
      i, j := k, |s| - 1;
    } else {
      i, j := Repeats(s[..|s| - 1], from - {last});
    }
  }
}
