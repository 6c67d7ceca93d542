/** In which order the search expands: by distance, then time, then progress, then age; so distances only grow. */
module SearchOrder {
  import opened EvrptwModel
  import opened PriorityQueue
  import opened ChargingSearch
  import opened ChargingExactness

  /** Every queued label stands under its own numbers, and labels queued later have higher serials. */
  ghost predicate InOrder(st: SearchState) {
    && (forall i | 0 <= i < |st.queue| :: Stands(st.queue[i]) && st.queue[i].priority.serial < st.serial)
    && (forall i, j | 0 <= i < j < |st.queue| :: st.queue[i].priority.serial < st.queue[j].priority.serial)
  }

  predicate Stands(e: Entry<Label>) {
    e.priority.distance == e.item.distance && e.priority.time == e.item.time && e.priority.negProgress == -(e.item.progress as int)
  }

  /** No queued label is shorter than this. */
  ghost predicate NoneShorter(st: SearchState, d: real) { forall e | e in st.queue :: d <= e.item.distance }

  lemma FileOrdered(p: Problem, st: SearchState, c: Label, d: real)
    requires InOrder(st) && NoneShorter(st, d) && d <= c.distance
    ensures InOrder(File(p, st, c)) && NoneShorter(File(p, st, c), d)
  {
    hide Dominates, BetterTerminal, IsTerminal;
  }

  lemma RelaxOrdered(p: Problem, l: Label, k: Key, st: SearchState)
    requires ValidProblem(p) && k.1 < |p.inst.nodes| && InOrder(st) && NoneShorter(st, l.distance)
    ensures InOrder(Relax(p, l, k, st)) && NoneShorter(Relax(p, l, k, st), l.distance)
  {
    hide File, Arrive, Stands;
    var e := Extend(p, l, k.1, k.0);
    var counted := st.(generated := st.generated + 1);
    if e.Some? {
      assert p.inst.dist(l.node, k.1) >= 0.0;
      FileOrdered(p, counted, e.value, l.distance);
    }
  }

  lemma {:induction false} RelaxAllOrdered(p: Problem, l: Label, ks: seq<Key>, st: SearchState)
    requires ValidProblem(p) && (forall k | k in ks :: k.1 < |p.inst.nodes|) && InOrder(st) && NoneShorter(st, l.distance)
    ensures InOrder(RelaxAll(p, l, ks, st)) && NoneShorter(RelaxAll(p, l, ks, st), l.distance)
  {
    hide InOrder, NoneShorter, Relax, Metric;
    if ks != [] {
      RelaxOrdered(p, l, ks[0], st);
      RelaxAllOrdered(p, l, ks[1..], Relax(p, l, ks[0], st));
    }
  }

  lemma PopOrdered(st: SearchState, i: nat, expanded: nat, pruned: nat)
    requires InOrder(st) && i < |st.queue|
    ensures InOrder(st.(queue := Without(st.queue, i), expanded := expanded, pruned := pruned))
    ensures forall d :: NoneShorter(st, d) ==> NoneShorter(st.(queue := Without(st.queue, i), expanded := expanded, pruned := pruned), d)
  {
    var rest := Without(st.queue, i);
    assert forall j | 0 <= j < |rest| :: rest[j] == if j < i then st.queue[j] else st.queue[j + 1];
  }

  /** The label a turn takes off the queue: none is shorter; of equally short ones none is earlier; of these none has
      served more customers; and of these it has been waiting longest. */
  ghost predicate GoesFirst(st: SearchState, i: nat)
    requires i < |st.queue|
  {
    forall j | 0 <= j < |st.queue| && j != i ::
      var l, m := st.queue[i].item, st.queue[j].item;
      || l.distance < m.distance
      || (l.distance == m.distance && (|| l.time < m.time
                                       || (l.time == m.time && (l.progress > m.progress || (l.progress == m.progress && i < j)))))
  }

  lemma MinGoesFirst(st: SearchState)
    requires InOrder(st) && st.queue != []
    ensures GoesFirst(st, MinIndex(st.queue)) && NoneShorter(st, st.queue[MinIndex(st.queue)].item.distance)
  {
    var i := MinIndex(st.queue);
    forall j | 0 <= j < |st.queue| ensures !Before(st.queue[j].priority, st.queue[i].priority) && Stands(st.queue[j]) { }
    if i + 1 < |st.queue| { assert st.queue[i].priority.serial < st.queue[i + 1].priority.serial; }
  }

  lemma TurnOrdered(p: Problem, st: SearchState)
    requires ValidProblem(p) && InOrder(st) && st.queue != []
    ensures InOrder(Iterate(p, st)) && NoneShorter(Iterate(p, st), st.queue[MinIndex(st.queue)].item.distance)
  {
    hide InOrder, NoneShorter, RelaxAll, Live, Cut, Metric, Successors;
    var i := MinIndex(st.queue);
    var l := st.queue[i].item;
    MinGoesFirst(st);
    SuccessorsKnown(p, l);
    PopOrdered(st, i, st.expanded, st.pruned);
    PopOrdered(st, i, st.expanded, st.pruned + 1);
    PopOrdered(st, i, st.expanded + 1, st.pruned);
    RelaxAllOrdered(p, l, Successors(p, l), st.(queue := Without(st.queue, i), expanded := st.expanded + 1));
  }

  /** At every turn, for every tolerance, the label taken goes first among all queued ones. */
  lemma {:induction false} TakesTheFirst(p: Problem, n: nat)
    requires ValidProblem(p)
    ensures InOrder(After(p, n))
    ensures After(p, n).queue != [] ==> GoesFirst(After(p, n), MinIndex(After(p, n).queue))
  {
    hide InOrder, GoesFirst, NoneShorter, Iterate, Start, Metric;
    if n == 0 {
      StartOrdered(p);
    } else {
      TakesTheFirst(p, n - 1);
      if After(p, n - 1).queue != [] { TurnOrdered(p, After(p, n - 1)); } else { StaysEmpty(p, After(p, n - 1)); }
    }
    if After(p, n).queue != [] { MinGoesFirst(After(p, n)); }
  }

  lemma StartOrdered(p: Problem)
    requires ValidProblem(p)
    ensures InOrder(Start(p))
  {
  }

  lemma StaysEmpty(p: Problem, st: SearchState)
    requires Runnable(p) && st.queue == []
    ensures Iterate(p, st) == st
  {
  }

  /** The labels taken off the queue never get shorter. */
  lemma {:induction false} DistancesGrow(p: Problem, n: nat, m: nat)
    requires ValidProblem(p) && n < m && After(p, n).queue != []
    ensures NoneShorter(After(p, m), After(p, n).queue[MinIndex(After(p, n).queue)].item.distance)
    decreases m
  {
    hide InOrder, Iterate, Start, Metric;
    TakesTheFirst(p, n);
    TakesTheFirst(p, m - 1);
    var d := After(p, n).queue[MinIndex(After(p, n).queue)].item.distance;
    if n == m - 1 {
      TurnOrdered(p, After(p, n));
    } else {
      DistancesGrow(p, n, m - 1);
      var st := After(p, m - 1);
      if st.queue != [] {
        TurnOrdered(p, st);
        assert st.queue[MinIndex(st.queue)] in st.queue;
      } else {
        StaysEmpty(p, st);
      }
    }
  }

  // ---- the order of the moves --------------------------------------------------------------------------------

  lemma {:induction false} StationMovesInOrder(stations: seq<nat>, l: Label)
    requires forall i, j | 0 <= i < j < |stations| :: stations[i] < stations[j]
    ensures forall i, j | 0 <= i < j < |StationMoves(stations, l)| :: StationMoves(stations, l)[i].1 < StationMoves(stations, l)[j].1
  {
    if stations != [] {
      var rest := stations[1..];
      var moves := StationMoves(rest, l);
      StationMovesInOrder(rest, l);
      forall i | 0 <= i < |moves| ensures stations[0] < moves[i].1 {
        assert moves[i] in moves;
        var j :| 0 <= j < |rest| && rest[j] == moves[i].1;
        assert stations[j + 1] == rest[j];
      }
    }
  }

  /** The next customer, or the depot after the last one, is tried first, then the stations in the order of the instance. */
  lemma MovesInOrder(p: Problem, l: Label)
    ensures var ks := Successors(p, l);
      && ks != [] && ks[0] == (if l.progress < |p.order| then (l.progress + 1, p.order[l.progress]) else (l.progress, p.inst.depot))
      && (forall i | 0 < i < |ks| :: ks[i].0 == l.progress && IsStation(p.inst, ks[i].1) && ks[i].1 != l.node)
      && (forall i, j | 0 < i < j < |ks| :: ks[i].1 < ks[j].1)
  {
    var moves := StationMoves(Stations(p.inst), l);
    StationMovesInOrder(Stations(p.inst), l);
    var ks := Successors(p, l);
    forall i | 0 < i < |ks| ensures ks[i] == moves[i - 1] && ks[i] in moves { }
  }

  // ---- dominance ---------------------------------------------------------------------------------------------

  /** No worse up to the tolerance. */
  predicate Nearly(eps: real, l: Label, r: Label) {
    NoWorse(l, r.(time := r.time + eps, battery := r.battery - eps, distance := r.distance + eps))
  }

  /** Dominance is the strict part of being no worse up to the tolerance; so no label dominates itself, and no two
      dominate each other. */
  lemma DominanceIsStrict(eps: real, l: Label, r: Label)
    ensures Dominates(eps, l, r) <==> Nearly(eps, l, r) && !Nearly(eps, r, l)
    ensures !Dominates(eps, l, l) && !(Dominates(eps, l, r) && Dominates(eps, r, l))
  {
  }
}
