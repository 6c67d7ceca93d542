/** One search round of a route: pop to a live label, cut or expand it, and work off its requests. */
module BatchRounds {
  import opened Options
  import opened EvrptwModel
  import opened PriorityQueue
  import opened Counting
  import opened ChargingSearch
  import opened ChargingExactness
  import opened TimedTermination
  import opened BatchLabels
  import opened BatchRefinement

  // ---- counting rounds -----------------------------------------------------------------------------------

  predicate PopsLive(st: SearchState) {
    st.queue != [] && Live(st, st.queue[MinIndex(st.queue)].item)
  }

  /** How many of the first `n` turns popped a live label: the rounds the batch gives the route. */
  function LivePops(p: Problem, n: nat): (r: nat)
    requires Runnable(p)
    ensures r <= n
  {
    if n == 0 then 0 else LivePops(p, n - 1) + if PopsLive(After(p, n - 1)) then 1 else 0
  }

  /** The state in which the search of a route ends. */
  ghost function FinalOf(p: Problem): SearchState
    requires Runnable(p) && Halts(p)
  {
    var n: nat :| After(p, n).queue == [];
    After(p, n)
  }

  /** The round in which the batch finds a route finished. */
  ghost function RoundsOf(p: Problem): (r: nat)
    requires Runnable(p) && Halts(p)
    ensures r > 0
  {
    var n: nat :| After(p, n).queue == [];
    LivePops(p, n) + 1
  }

  lemma {:induction false} FinishedStays(p: Problem, n: nat, m: nat)
    requires Runnable(p) && After(p, n).queue == [] && n <= m
    ensures After(p, m) == After(p, n) && LivePops(p, m) == LivePops(p, n)
    decreases m
  {
    hide RelaxAll, Start, Live, Cut, Successors;
    if n < m { FinishedStays(p, n, m - 1); }
  }

  lemma OneEnd(p: Problem, n: nat, m: nat)
    requires Runnable(p) && After(p, n).queue == [] && After(p, m).queue == []
    ensures After(p, n) == After(p, m) && LivePops(p, n) == LivePops(p, m)
  {
    hide After, LivePops;
    if n <= m { FinishedStays(p, n, m); } else { FinishedStays(p, m, n); }
  }

  /** Whenever the queue of a route runs empty, its final state and round count are the ones named above. */
  lemma FinishedIsFinal(p: Problem, n: nat)
    requires Runnable(p) && After(p, n).queue == []
    ensures Halts(p) && After(p, n) == FinalOf(p) && LivePops(p, n) + 1 == RoundsOf(p)
  {
    hide After, LivePops;
    forall m: nat | After(p, m).queue == [] ensures After(p, n) == After(p, m) && LivePops(p, n) == LivePops(p, m) {
      OneEnd(p, n, m);
    }
  }

  lemma {:induction false} LivePopsGrow(p: Problem, n: nat, m: nat)
    requires Runnable(p) && n <= m
    ensures LivePops(p, n) <= LivePops(p, m)
    decreases m
  {
    hide After, PopsLive, ValidProblem;
    if n < m { LivePopsGrow(p, n, m - 1); }
  }

  /** A search that halts never needs more rounds than the one in which it is found finished. */
  lemma RoundsBounded(p: Problem, n: nat)
    requires Runnable(p) && Halts(p)
    ensures LivePops(p, n) < RoundsOf(p)
  {
    hide After, LivePops;
    var m: nat :| After(p, m).queue == [];
    FinishedIsFinal(p, m);
    if n <= m { LivePopsGrow(p, n, m); } else { FinishedStays(p, m, n); }
  }

  // ---- popping -------------------------------------------------------------------------------------------

  /** Where a popped route stands: finished, or with a live label taken off the queue. */
  ghost predicate Popped(p: Problem, c: RouteSearch, index: Option<nat>, m: nat)
    requires Runnable(p)
  {
    var s := After(p, m);
    match index
    case None => s.queue == [] && Mirrors(p, c, s)
    case Some(id) =>
      && PopsLive(s) && Shaped(p, c) && id < |c.arena|
      && s.queue[MinIndex(s.queue)].item == ViewOf(c.arena, id)
      && Mirrors(p, c, s.(queue := Without(s.queue, MinIndex(s.queue))))
      && Unqueued(c, id) && Childless(c, id)
  }

  lemma {:induction false} PopLiveMirrors(p: Problem, c: RouteSearch, n: nat) returns (m: nat)
    requires Runnable(p) && Mirrors(p, c, After(p, n)) && QueueInRange(c)
    ensures n <= m && LivePops(p, m) == LivePops(p, n)
    ensures Popped(p, PopLive(c).0, PopLive(c).1, m)
    decreases |c.queue|
  {
    hide Mirrors, Shaped, Before, After, ViewOf, Unqueued, Childless;
    MirrorsShape(p, c, After(p, n));
    if c.queue == [] {
      m := n;
    } else {
      var s := After(p, n);
      var i := MinIndex(c.queue);
      var index := c.queue[i].item;
      OrderKept(p, c, s);
      PopMirrors(p, c, s, i);
      LiveMatches(p, c, s, index);
      if c.arena[index].live {
        m := n;
        MirrorsShape(p, c.(queue := Without(c.queue, i)), s.(queue := Without(s.queue, i)));
        SameView(p, c, c.(queue := Without(c.queue, i)), index);
      } else {
        StaleTurn(p, n);
        m := PopLiveMirrors(p, c.(queue := Without(c.queue, i)), n + 1);
      }
    }
  }

  lemma SameView(p: Problem, c: RouteSearch, c': RouteSearch, index: nat)
    requires Shaped(p, c) && Shaped(p, c') && c.arena == c'.arena && index < |c.arena|
    ensures ViewOf(c'.arena, index) == ViewOf(c.arena, index)
  {
  }

  lemma MirrorsShape(p: Problem, c: RouteSearch, s: SearchState)
    requires Mirrors(p, c, s)
    ensures Shaped(p, c) && ArenaShaped(c.arena) && |c.queue| == |s.queue| && QueueInRange(c)
    ensures forall i | 0 <= i < |c.queue| :: s.queue[i].item == ViewOf(c.arena, c.queue[i].item)
  {
  }

  lemma OrderKept(p: Problem, c: RouteSearch, s: SearchState)
    requires Mirrors(p, c, s) && c.queue != []
    ensures s.queue != [] && MinIndex(c.queue) == MinIndex(s.queue)
  {
    SameOrder(p, c, s);
  }

  /** A turn that pops a stale label only shortens the queue. */
  lemma StaleTurn(p: Problem, n: nat)
    requires Runnable(p) && After(p, n).queue != [] && !PopsLive(After(p, n))
    ensures After(p, n + 1) == After(p, n).(queue := Without(After(p, n).queue, MinIndex(After(p, n).queue)))
    ensures LivePops(p, n + 1) == LivePops(p, n)
  {
    hide RelaxAll, Successors, Start;
  }

  // ---- requests ------------------------------------------------------------------------------------------

  predicate DistinctNodes(ks: seq<Key>) {
    forall i, j | 0 <= i < j < |ks| :: ks[i].1 != ks[j].1
  }

  lemma {:induction false} StationMovesDistinct(stations: seq<nat>, l: Label)
    requires Distinct(stations)
    ensures DistinctNodes(StationMoves(stations, l))
  {
    if stations != [] {
      var rest := StationMoves(stations[1..], l);
      StationMovesDistinct(stations[1..], l);
      forall i | 0 <= i < |rest| ensures rest[i].1 != stations[0] {
        assert rest[i] in rest;
        var j :| 0 <= j < |stations[1..]| && stations[1..][j] == rest[i].1;
        assert stations[j + 1] == rest[i].1;
      }
    }
  }

  lemma SuccessorsDistinct(p: Problem, l: Label)
    requires ValidProblem(p) && l.progress <= |p.order|
    ensures DistinctNodes(Successors(p, l)) && forall k | k in Successors(p, l) :: KeyInRange(p, k)
  {
    hide Metric;
    var moves := StationMoves(Stations(p.inst), l);
    StationMovesDistinct(Stations(p.inst), l);
    forall i | 0 <= i < |moves| ensures moves[i].1 != Onward(p, l).1 {
      assert moves[i] in moves && IsStation(p.inst, moves[i].1);
    }
  }

  /** A route whose popped label `index` still has the requests `ks` open, on the way to the state `target`. */
  ghost predicate Pending(p: Problem, c: RouteSearch, index: nat, ks: seq<Key>, target: SearchState, s: SearchState)
    requires Runnable(p)
  {
    && Mirrors(p, c, s) && Shaped(p, c) && index < |c.arena| && Unqueued(c, index) && DistinctNodes(ks)
    && (forall k | k in ks :: KeyInRange(p, k) && NoStep(c, index, k.1))
    && RelaxAll(p, ViewOf(c.arena, index), ks, s) == target
  }

  lemma PendingStep(p: Problem, c: RouteSearch, index: nat, ks: seq<Key>, target: SearchState, s: SearchState)
    requires Runnable(p) && Pending(p, c, index, ks, target, s) && ks != []
    ensures KeyInRange(p, ks[0])
    ensures Pending(p, Handle(p, c, index, ks[0]), index, ks[1..], target, Relax(p, ViewOf(c.arena, index), ks[0], s))
  {
    hide Mirrors, Handle, Relax, PathOf, Unqueued;
    assert ks[0] in ks;
    HandleMirrors(p, c, s, index, ks[0]);
    var c' := Handle(p, c, index, ks[0]);
    MirrorsShape(p, c', Relax(p, ViewOf(c.arena, index), ks[0], s));
    PathFrame(c.arena, c'.arena, index);
    forall k | k in ks[1..] ensures KeyInRange(p, k) && NoStep(c', index, k.1) {
      assert k in ks;
    }
  }

  lemma PendingDone(p: Problem, c: RouteSearch, index: nat, target: SearchState, s: SearchState)
    requires Runnable(p) && Pending(p, c, index, [], target, s)
    ensures Mirrors(p, c, target)
  {
  }

  /** The cut test reads the same numbers on both sides. */
  lemma CutMatches(p: Problem, c: RouteSearch, s: SearchState, index: nat)
    requires Mirrors(p, c, s) && index < |c.arena|
    ensures Cut(p, s, ViewOf(c.arena, index))
      <==> (c.best.Some? && c.arena[index].distance >= c.best.value.distance - p.eps)
  {
  }

  lemma PoppedInRange(p: Problem, c: RouteSearch, s: SearchState, index: nat)
    requires Mirrors(p, c, s) && index < |c.arena|
    ensures c.arena[index].progress <= |p.order|
  {
  }

  /** Cutting a popped label completes the turn. */
  lemma CutTurn(p: Problem, c: RouteSearch, index: nat, m: nat)
    requires Runnable(p) && Popped(p, c, Some(index), m)
    requires c.best.Some? && c.arena[index].distance >= c.best.value.distance - p.eps
    ensures Mirrors(p, c.(pruned := c.pruned + 1), After(p, m + 1)) && LivePops(p, m + 1) == LivePops(p, m) + 1
  {
    hide Mirrors, Successors, RelaxAll, ViewOf, Before, Start;
    var s := After(p, m);
    var rest := s.(queue := Without(s.queue, MinIndex(s.queue)));
    CutMatches(p, c, rest, index);
    PrunedMirrors(p, c, rest);
  }

  lemma LiveTurn(p: Problem, m: nat)
    requires ValidProblem(p) && PopsLive(After(p, m))
    ensures var s := After(p, m);
      var l, rest := s.queue[MinIndex(s.queue)].item, s.(queue := Without(s.queue, MinIndex(s.queue)));
      && (forall k | k in Successors(p, l) :: k.1 < |p.inst.nodes|)
      && (!Cut(p, s, l) ==> After(p, m + 1) == RelaxAll(p, l, Successors(p, l), rest.(expanded := s.expanded + 1)))
      && LivePops(p, m + 1) == LivePops(p, m) + 1
  {
    hide Start, RelaxAll, Metric, StationMoves;
    var s := After(p, m);
    SuccessorsKnown(p, s.queue[MinIndex(s.queue)].item);
  }

  /** Expanding a popped label opens its requests on the way to the end of the turn. */
  lemma ExpandTurn(p: Problem, c: RouteSearch, index: nat, m: nat)
    requires ValidProblem(p) && Popped(p, c, Some(index), m)
    requires !(c.best.Some? && c.arena[index].distance >= c.best.value.distance - p.eps)
    ensures var s := After(p, m); var c' := c.(expanded := c.expanded + 1);
      && Shaped(p, c') && ArenaShaped(c'.arena)
      && Pending(p, c', index, Successors(p, ViewOf(c'.arena, index)), After(p, m + 1),
                 s.(queue := Without(s.queue, MinIndex(s.queue)), expanded := s.expanded + 1))
      && LivePops(p, m + 1) == LivePops(p, m) + 1
  {
    hide Mirrors, Successors, Before, Start, Metric, PathOf, RelaxAll, After, LivePops, Live;
    var s := After(p, m);
    var rest := s.(queue := Without(s.queue, MinIndex(s.queue)));
    var l := ViewOf(c.arena, index);
    LiveTurn(p, m);
    CutMatches(p, c, rest, index);
    PoppedInRange(p, c, rest, index);
    SuccessorsDistinct(p, l);
    CountsMirror(p, c, rest, c.generated, c.expanded + 1, c.pruned);
    RestCounts(p, c, rest);
    ExpandShape(p, c, index);
  }

  lemma ExpandShape(p: Problem, c: RouteSearch, index: nat)
    requires Shaped(p, c) && Unqueued(c, index) && Childless(c, index)
    ensures var c' := c.(expanded := c.expanded + 1);
      Shaped(p, c') && Unqueued(c', index) && forall node: nat :: NoStep(c', index, node)
  {
  }

  lemma RestCounts(p: Problem, c: RouteSearch, s: SearchState)
    requires Mirrors(p, c, s)
    ensures c.generated == s.generated && c.expanded == s.expanded && c.pruned == s.pruned
  {
  }
}
