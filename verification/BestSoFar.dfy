/** Which route the search keeps: of all routes it has completed, the shortest; of equally short ones the one that
    finishes earliest; and of those the one completed first. */
module BestSoFar {
  import opened Options
  import opened EvrptwModel
  import opened PriorityQueue
  import opened ChargingSearch
  import opened ChargingExactness

  /** Shorter, or as short and finished earlier. */
  predicate Beats(a: Label, b: Label) { a.distance < b.distance || (a.distance == b.distance && a.time < b.time) }

  /** The routes completed by the moves `ks` from a label, in order. */
  function CompletedBy(p: Problem, l: Label, ks: seq<Key>): seq<Label>
    requires p.inst.vehicle.velocity != 0.0 && forall k | k in ks :: k.1 < |p.inst.nodes|
  {
    if ks == [] then []
    else
      var e := Extend(p, l, ks[0].1, ks[0].0);
      (if e.Some? && IsTerminal(p, ks[0].0, ks[0].1) then [e.value] else []) + CompletedBy(p, l, ks[1..])
  }

  /** The label a turn takes off the queue, unless it is stale or no shorter than the incumbent. */
  function Expanded(p: Problem, st: SearchState): (l: Option<Label>)
    ensures l.Some? ==> st.queue != [] && l.value == st.queue[MinIndex(st.queue)].item
  {
    if st.queue == [] then None
    else
      var l := st.queue[MinIndex(st.queue)].item;
      if l in Bucket(st, KeyOf(l)) && (st.best.None? || l.distance < st.best.value.distance - p.eps) then Some(l) else None
  }

  /** All routes completed in the first `n` turns, in order. */
  function Completions(p: Problem, n: nat): seq<Label>
    requires ValidProblem(p)
  {
    if n == 0 then []
    else
      var l := Expanded(p, After(p, n - 1));
      Completions(p, n - 1) + if l.Some? then CompletedBy(p, l.value, MovesFrom(p, l.value)) else []
  }

  function MovesFrom(p: Problem, l: Label): (ks: seq<Key>)
    requires ValidProblem(p)
    ensures ks == Successors(p, l) && forall k | k in ks :: k.1 < |p.inst.nodes|
  {
    SuccessorsKnown(p, l);
    Successors(p, l)
  }

  /** `best` is an entry that beats all earlier ones and that no later one beats. */
  ghost predicate FirstBest(done: seq<Label>, best: Option<Label>) {
    match best
    case None => done == []
    case Some(b) => exists i :: 0 <= i < |done| && Leads(done, i) && done[i] == b
  }

  ghost predicate Leads(done: seq<Label>, i: nat)
    requires i < |done|
  {
    && (forall j | 0 <= j < i :: Beats(done[i], done[j]))
    && (forall j | i < j < |done| :: !Beats(done[j], done[i]))
  }

  lemma BeatsOn(a: Label, b: Label, d: Label)
    requires Beats(a, b)
    ensures Beats(b, d) || !Beats(d, b) || b == d ==> Beats(a, d)
  {
  }

  /** A completed route takes its place, or does not. */
  lemma OneMore(done: seq<Label>, best: Option<Label>, c: Label)
    requires FirstBest(done, best)
    ensures FirstBest(done + [c], if best.None? || Beats(c, best.value) then Some(c) else best)
  {
    hide Beats;
    var more, n := done + [c], |done|;
    match best {
      case None => assert Leads(more, n) && more[n] == c;
      case Some(b) =>
        var i :| 0 <= i < n && Leads(done, i) && done[i] == b;
        if Beats(c, b) {
          forall j | 0 <= j < n ensures Beats(more[n], more[j]) { BeatsOn(c, b, done[j]); }
          assert Leads(more, n) && more[n] == c;
        } else {
          assert Leads(more, i) && more[i] == b;
        }
    }
  }

  lemma FileKeeps(p: Problem, st: SearchState, c: Label, done: seq<Label>)
    requires FirstBest(done, st.best)
    ensures FirstBest(done + if IsTerminal(p, c.progress, c.node) then [c] else [], File(p, st, c).best)
  {
    hide Dominates, FirstBest;
    if IsTerminal(p, c.progress, c.node) {
      OneMore(done, st.best, c);
    } else {
      assert done + [] == done;
    }
  }

  lemma RelaxKeeps(p: Problem, l: Label, k: Key, st: SearchState, done: seq<Label>)
    requires ValidProblem(p) && k.1 < |p.inst.nodes| && FirstBest(done, st.best)
    ensures FirstBest(done + CompletedBy(p, l, [k]), Relax(p, l, k, st).best)
  {
    hide Arrive, File, FirstBest, Metric;
    var e := Extend(p, l, k.1, k.0);
    assert [k][1..] == [] && CompletedBy(p, l, []) == [];
    if e.Some? {
      FileKeeps(p, st.(generated := st.generated + 1), e.value, done);
      assert CompletedBy(p, l, [k]) == if IsTerminal(p, k.0, k.1) then [e.value] else [];
    } else {
      assert done + CompletedBy(p, l, [k]) == done;
    }
  }

  lemma {:induction false} RelaxAllKeeps(p: Problem, l: Label, ks: seq<Key>, st: SearchState, done: seq<Label>)
    requires ValidProblem(p) && FirstBest(done, st.best) && forall k | k in ks :: k.1 < |p.inst.nodes|
    ensures FirstBest(done + CompletedBy(p, l, ks), RelaxAll(p, l, ks, st).best)
  {
    hide Relax, FirstBest, Metric, Extend;
    if ks == [] {
      assert done + CompletedBy(p, l, ks) == done;
    } else {
      var one := CompletedBy(p, l, [ks[0]]);
      RelaxKeeps(p, l, ks[0], st, done);
      RelaxAllKeeps(p, l, ks[1..], Relax(p, l, ks[0], st), done + one);
      var first := [ks[0]];
      assert CompletedBy(p, l, []) == [] && first[1..] == [];
      assert done + CompletedBy(p, l, ks) == done + one + CompletedBy(p, l, ks[1..]);
    }
  }

  lemma TurnKeeps(p: Problem, st: SearchState, done: seq<Label>)
    requires ValidProblem(p) && FirstBest(done, st.best)
    ensures var l := Expanded(p, st);
      FirstBest(done + (if l.Some? then CompletedBy(p, l.value, MovesFrom(p, l.value)) else []), Iterate(p, st).best)
  {
    hide RelaxAll, FirstBest, Metric, Successors, CompletedBy, Iterate, Expanded, MovesFrom;
    var l := Expanded(p, st);
    if l.Some? {
      ExpandingTurn(p, st);
      var rest := st.(queue := Without(st.queue, MinIndex(st.queue)), expanded := st.expanded + 1);
      RelaxAllKeeps(p, l.value, MovesFrom(p, l.value), rest, done);
    } else {
      IdleTurn(p, st);
      assert done + [] == done;
    }
  }

  /** At every turn, for every tolerance, the incumbent is the first best of the routes completed so far. */
  lemma {:induction false} KeepsFirstBest(p: Problem, n: nat)
    requires ValidProblem(p)
    ensures FirstBest(Completions(p, n), After(p, n).best)
  {
    hide FirstBest, Iterate, Start, Expanded, CompletedBy, MovesFrom, Metric;
    if n == 0 {
      StartsWithout(p);
    } else {
      KeepsFirstBest(p, n - 1);
      TurnKeeps(p, After(p, n - 1), Completions(p, n - 1));
    }
  }

  lemma StartsWithout(p: Problem)
    requires ValidProblem(p)
    ensures FirstBest([], After(p, 0).best)
  {
  }

  // ---- what a turn counts ------------------------------------------------------------------------------------

  lemma {:induction false} RelaxAllCounts(p: Problem, l: Label, ks: seq<Key>, st: SearchState)
    requires ValidProblem(p) && forall k | k in ks :: k.1 < |p.inst.nodes|
    ensures RelaxAll(p, l, ks, st).generated == st.generated + |ks| && RelaxAll(p, l, ks, st).expanded == st.expanded
  {
    hide Extend, Dominates, Metric;
    if ks != [] { RelaxAllCounts(p, l, ks[1..], Relax(p, l, ks[0], st)); }
  }

  lemma ExpandingTurn(p: Problem, st: SearchState)
    requires ValidProblem(p) && Expanded(p, st).Some?
    ensures var ks := MovesFrom(p, Expanded(p, st).value);
      Iterate(p, st) == RelaxAll(p, Expanded(p, st).value, ks, st.(queue := Without(st.queue, MinIndex(st.queue)), expanded := st.expanded + 1))
  {
    hide RelaxAll, Metric, Successors;
  }

  lemma IdleTurn(p: Problem, st: SearchState)
    requires ValidProblem(p) && Expanded(p, st).None?
    ensures Iterate(p, st) == if st.queue == [] then st
                              else st.(queue := Without(st.queue, MinIndex(st.queue)),
                                       pruned := st.pruned + if Live(st, st.queue[MinIndex(st.queue)].item) then 1 else 0)
  {
    hide RelaxAll, Metric, Successors;
  }

  /** A turn expands one label or none and generates one label per move; what it takes off the queue and does not
      expand is stale, or cannot beat the incumbent by more than the tolerance. */
  lemma TurnCounts(p: Problem, n: nat)
    requires ValidProblem(p)
    ensures var s, t, l := After(p, n), After(p, n + 1), Expanded(p, After(p, n));
      && t.expanded == s.expanded + (if l.Some? then 1 else 0)
      && t.generated == s.generated + (if l.Some? then |MovesFrom(p, l.value)| else 0)
      && (l.None? ==> t.labels == s.labels && t.best == s.best
                      && t.queue == if s.queue == [] then [] else Without(s.queue, MinIndex(s.queue)))
      && (l.None? ==> t.pruned == s.pruned + if s.queue != [] && Live(s, s.queue[MinIndex(s.queue)].item) then 1 else 0)
  {
    hide RelaxAll, Metric, Successors, Start, Iterate, Expanded, MovesFrom, Live;
    var s, l := After(p, n), Expanded(p, After(p, n));
    if l.Some? {
      ExpandingTurn(p, s);
      RelaxAllCounts(p, l.value, MovesFrom(p, l.value), s.(queue := Without(s.queue, MinIndex(s.queue)), expanded := s.expanded + 1));
    } else {
      IdleTurn(p, s);
    }
  }
}
