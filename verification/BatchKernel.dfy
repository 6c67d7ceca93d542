/** The native batch: many routes searched in interleaved rounds under one deadline. */
module BatchKernel {
  import opened Options
  import opened EvrptwModel
  import opened PriorityQueue
  import opened Counting
  import opened StableSort
  import opened ChargingSearch
  import opened ChargingTermination
  import opened TimedTermination
  import opened BatchLabels
  import opened BatchRefinement
  import opened BatchRounds
  import opened BatchReads

  datatype Status = FeasibleStatus | InfeasibleStatus | InterruptedStatus

  datatype Reason = NoReason | NoPattern | DeadlinePassed

  datatype Cost = Finite(value: real) | Infinite

  datatype Metrics = Metrics(distance: Cost, energy: real, charged: real, chargeTime: real)

  datatype Counters = Counters(generated: nat, expanded: nat, pruned: nat)

  datatype Request = Request(route: nat, index: nat, key: Key)

  /** The variables of a batch run: the routes, which are completed, in what order and round, and how often the
      deadline was read. */
  datatype Run = Run(states: seq<RouteSearch>, completed: seq<bool>, completionOrder: seq<nat>,
                     completionRounds: seq<int>, checks: nat, chunks: nat, requests: nat)

  // ---- invariants ----------------------------------------------------------------------------------------

  /** The keys requested for one route, in order. */
  function For(reqs: seq<Request>, r: nat): seq<Key> {
    if reqs == [] then []
    else (if reqs[0].route == r then [reqs[0].key] else []) + For(reqs[1..], r)
  }

  lemma {:induction false} ForAppend(a: seq<Request>, b: seq<Request>, r: nat)
    ensures For(a + b, r) == For(a, r) + For(b, r)
  {
    if a == [] {
      assert a + b == b;
    } else {
      assert (a + b)[1..] == a[1..] + b;
      ForAppend(a[1..], b, r);
    }
  }

  /** All requests for the route come from one label. */
  predicate FromLabel(reqs: seq<Request>, r: nat, index: nat) {
    forall i | 0 <= i < |reqs| && reqs[i].route == r :: reqs[i].index == index
  }

  /** A running route at turn `t`, up to its open requests. */
  ghost predicate Underway(p: Problem, c: RouteSearch, reqs: seq<Request>, r: nat, t: nat)
    requires Runnable(p)
  {
    if For(reqs, r) == [] then Mirrors(p, c, After(p, t))
    else exists index, s :: FromLabel(reqs, r, index) && Pending(p, c, index, For(reqs, r), After(p, t), s)
  }

  /** A completed route: its queue ran empty at turn `t`, and its round is on record. */
  ghost predicate Done(p: Problem, c: RouteSearch, t: nat, round: int)
    requires Runnable(p)
  {
    After(p, t).queue == [] && Mirrors(p, c, After(p, t)) && round == LivePops(p, t) + 1
  }

  ghost predicate Sized(orders: seq<seq<nat>>, run: Run, turn: seq<nat>) {
    |run.states| == |run.completed| == |run.completionRounds| == |turn| == |orders|
  }

  /** Completed routes are done; the others have no round. */
  ghost predicate CompletedDone(inst: Instance, eps: real, orders: seq<seq<nat>>, run: Run, turn: seq<nat>, round: nat)
    requires BatchReady(inst, eps, orders) && Sized(orders, run, turn)
  {
    forall r | 0 <= r < |orders| ::
      if run.completed[r] then
        Done(ProblemOf(inst, eps, orders, r), run.states[r], turn[r], run.completionRounds[r]) && 1 <= run.completionRounds[r] <= round
      else run.completionRounds[r] == -1
  }

  /** The completion order lists the completed routes by round, then by number. */
  ghost predicate OrderRecorded(order: seq<nat>, rounds: seq<int>) {
    && (forall i | 0 <= i < |order| :: order[i] < |rounds| && rounds[order[i]] > 0)
    && (forall r: nat | r < |rounds| && rounds[r] > 0 :: r in order)
    && (forall i, j | 0 <= i < j < |order| :: Earlier(rounds, order[i], order[j]))
  }

  /** Between rounds. */
  ghost predicate AtRound(inst: Instance, eps: real, orders: seq<seq<nat>>, run: Run, turn: seq<nat>, round: nat)
    requires BatchReady(inst, eps, orders) && Sized(orders, run, turn)
  {
    && CompletedDone(inst, eps, orders, run, turn, round) && OrderRecorded(run.completionOrder, run.completionRounds)
    && (forall r | 0 <= r < |orders| && !run.completed[r] ::
          Mirrors(ProblemOf(inst, eps, orders, r), run.states[r], After(ProblemOf(inst, eps, orders, r), turn[r]))
          && LivePops(ProblemOf(inst, eps, orders, r), turn[r]) == round)
  }

  /** Within a round: routes below `i` have been popped, and `reqs` are still open. */
  ghost predicate InRound(inst: Instance, eps: real, orders: seq<seq<nat>>, run: Run, turn: seq<nat>, round: nat, i: nat, reqs: seq<Request>)
    requires BatchReady(inst, eps, orders) && Sized(orders, run, turn)
  {
    && CompletedDone(inst, eps, orders, run, turn, round) && OrderRecorded(run.completionOrder, run.completionRounds)
    && (forall r | 0 <= r < |orders| && !run.completed[r] ::
          Underway(ProblemOf(inst, eps, orders, r), run.states[r], reqs, r, turn[r])
          && LivePops(ProblemOf(inst, eps, orders, r), turn[r]) + (if r < i then 0 else 1) == round)
    && (forall q | q in reqs :: q.route < i && q.route < |orders| && !run.completed[q.route])
  }

  // ---- popping all routes --------------------------------------------------------------------------------

  /** Adding a completed route of the current round at the end keeps the order recorded. */
  lemma OrderGrows(order: seq<nat>, rounds: seq<int>, r: nat, round: nat)
    requires OrderRecorded(order, rounds) && r < |rounds| && rounds[r] == -1 && round > 0
    requires forall a: nat | a < |rounds| && rounds[a] > 0 :: rounds[a] < round || (rounds[a] == round && a < r)
    ensures OrderRecorded(order + [r], rounds[r := round])
  {
    var order', rounds' := order + [r], rounds[r := round];
    assert r !in order;
    forall i, j | 0 <= i < j < |order'| ensures Earlier(rounds', order'[i], order'[j]) {
      if j < |order| {
        assert Earlier(rounds, order[i], order[j]) && order[i] in order && order[j] in order;
      } else {
        assert order[i] in order && rounds[order[i]] > 0;
      }
    }
  }

  /** This round has only completed routes below `i`. */
  ghost predicate RoundBelow(run: Run, round: nat, i: nat) {
    forall a: nat | a < |run.completionRounds| && run.completionRounds[a] == round :: a < i
  }

  ghost predicate Visiting(inst: Instance, eps: real, orders: seq<seq<nat>>, run: Run, turn: seq<nat>, round: nat, i: nat, reqs: seq<Request>)
    requires BatchReady(inst, eps, orders) && Sized(orders, run, turn)
  {
    InRound(inst, eps, orders, run, turn, round, i, reqs) && RoundBelow(run, round, i) && round > 0
  }

  function RequestsFor(r: nat, index: nat, ks: seq<Key>): seq<Request> {
    seq(|ks|, i requires 0 <= i < |ks| => Request(r, index, ks[i]))
  }

  lemma {:induction false} ForOwn(r: nat, index: nat, ks: seq<Key>)
    ensures For(RequestsFor(r, index, ks), r) == ks
  {
    if ks != [] {
      assert RequestsFor(r, index, ks)[1..] == RequestsFor(r, index, ks[1..]);
      ForOwn(r, index, ks[1..]);
    }
  }

  lemma {:induction false} ForNone(reqs: seq<Request>, r: nat)
    requires forall q | q in reqs :: q.route != r
    ensures For(reqs, r) == []
  {
    if reqs != [] {
      assert reqs[0] in reqs;
      ForNone(reqs[1..], r);
    }
  }

  lemma FromLabelAppend(a: seq<Request>, b: seq<Request>, r: nat, index: nat)
    requires FromLabel(a, r, index) && FromLabel(b, r, index)
    ensures FromLabel(a + b, r, index)
  {
    assert forall i | |a| <= i < |a + b| :: (a + b)[i] == b[i - |a|];
  }

  /** Other routes do not notice what one route does. */
  lemma OthersUnderway(p: Problem, c: RouteSearch, reqs: seq<Request>, more: seq<Request>, r: nat, t: nat)
    requires Runnable(p) && Underway(p, c, reqs, r, t) && forall q | q in more :: q.route != r
    ensures Underway(p, c, reqs + more, r, t)
  {
    hide Mirrors, Pending, After;
    ForAppend(reqs, more, r);
    ForNone(more, r);
    if For(reqs, r) != [] {
      var index, s :| FromLabel(reqs, r, index) && Pending(p, c, index, For(reqs, r), After(p, t), s);
      assert FromLabel(more, r, index) by {
        assert forall i | 0 <= i < |more| :: more[i] in more;
      }
      FromLabelAppend(reqs, more, r, index);
      assert For(reqs + more, r) == For(reqs, r);
    }
  }

  /** What a visit does to the run: the route's state, and perhaps its completion. */
  function Finish(run: Run, i: nat, c: RouteSearch, round: nat): Run
    requires i < |run.states| == |run.completed| == |run.completionRounds|
  {
    run.(states := run.states[i := c], completed := run.completed[i := true],
         completionOrder := run.completionOrder + [i], completionRounds := run.completionRounds[i := round])
  }

  /** The visited route is done, or underway with the new requests. */
  lemma VisitFinished(inst: Instance, eps: real, orders: seq<seq<nat>>, run: Run, turn: seq<nat>, round: nat, i: nat, reqs: seq<Request>,
                      c: RouteSearch, m: nat)
    requires BatchReady(inst, eps, orders) && Sized(orders, run, turn) && Visiting(inst, eps, orders, run, turn, round, i, reqs)
    requires i < |orders| && !run.completed[i]
    requires Popped(ProblemOf(inst, eps, orders, i), c, None, m)
    requires LivePops(ProblemOf(inst, eps, orders, i), m) == LivePops(ProblemOf(inst, eps, orders, i), turn[i])
    ensures var run' := Finish(run, i, c, round);
      Sized(orders, run', turn[i := m]) && Visiting(inst, eps, orders, run', turn[i := m], round, i + 1, reqs)
  {
    hide Mirrors, Underway, LivePops, After;
    OrderGrows(run.completionOrder, run.completionRounds, i, round);
    var run' := Finish(run, i, c, round);
    assert CompletedDone(inst, eps, orders, run', turn[i := m], round);
  }

  lemma VisitCut(inst: Instance, eps: real, orders: seq<seq<nat>>, run: Run, turn: seq<nat>, round: nat, i: nat, reqs: seq<Request>,
                 c: RouteSearch, t: nat)
    requires BatchReady(inst, eps, orders) && Sized(orders, run, turn) && Visiting(inst, eps, orders, run, turn, round, i, reqs)
    requires i < |orders| && !run.completed[i]
    requires Mirrors(ProblemOf(inst, eps, orders, i), c, After(ProblemOf(inst, eps, orders, i), t))
    requires LivePops(ProblemOf(inst, eps, orders, i), t) == LivePops(ProblemOf(inst, eps, orders, i), turn[i]) + 1
    ensures var run' := run.(states := run.states[i := c]);
      Sized(orders, run', turn[i := t]) && Visiting(inst, eps, orders, run', turn[i := t], round, i + 1, reqs)
  {
    hide Mirrors, LivePops, After, OrderRecorded, Pending, FromLabel;
    ForNone(reqs, i);
    var run' := run.(states := run.states[i := c]);
    assert CompletedDone(inst, eps, orders, run', turn[i := t], round);
  }

  lemma VisitExpanded(inst: Instance, eps: real, orders: seq<seq<nat>>, run: Run, turn: seq<nat>, round: nat, i: nat, reqs: seq<Request>,
                      c: RouteSearch, index: nat, ks: seq<Key>, t: nat, s: SearchState)
    requires BatchReady(inst, eps, orders) && Sized(orders, run, turn) && Visiting(inst, eps, orders, run, turn, round, i, reqs)
    requires i < |orders| && !run.completed[i] && ks != []
    requires Pending(ProblemOf(inst, eps, orders, i), c, index, ks, After(ProblemOf(inst, eps, orders, i), t), s)
    requires LivePops(ProblemOf(inst, eps, orders, i), t) == LivePops(ProblemOf(inst, eps, orders, i), turn[i]) + 1
    ensures var run' := run.(states := run.states[i := c]);
      Sized(orders, run', turn[i := t])
      && Visiting(inst, eps, orders, run', turn[i := t], round, i + 1, reqs + RequestsFor(i, index, ks))
  {
    hide Mirrors, LivePops, After, OrderRecorded, Pending, FromLabel, Underway;
    var run', more := run.(states := run.states[i := c]), RequestsFor(i, index, ks);
    assert CompletedDone(inst, eps, orders, run', turn[i := t], round);
    OwnUnderway(ProblemOf(inst, eps, orders, i), c, reqs, i, index, ks, t, s);
    forall r | 0 <= r < |orders| && !run.completed[r] && r != i
      ensures Underway(ProblemOf(inst, eps, orders, r), run.states[r], reqs + more, r, turn[r])
    {
      OthersUnderway(ProblemOf(inst, eps, orders, r), run.states[r], reqs, more, r, turn[r]);
    }
    assert forall q | q in more :: q.route == i;
  }

  lemma OwnUnderway(p: Problem, c: RouteSearch, reqs: seq<Request>, r: nat, index: nat, ks: seq<Key>, t: nat, s: SearchState)
    requires Runnable(p) && Pending(p, c, index, ks, After(p, t), s) && ks != []
    requires forall q | q in reqs :: q.route != r
    ensures Underway(p, c, reqs + RequestsFor(r, index, ks), r, t)
  {
    hide Mirrors, Pending, After;
    var more := RequestsFor(r, index, ks);
    ForAppend(reqs, more, r);
    ForNone(reqs, r);
    ForOwn(r, index, ks);
    assert FromLabel(reqs, r, index) by {
      assert forall i | 0 <= i < |reqs| :: reqs[i] in reqs;
    }
    FromLabelAppend(reqs, more, r, index);
    assert For(reqs + more, r) == ks;
  }

  // ---- the loops -----------------------------------------------------------------------------------------

  /** One route in one round: pop, then finish, cut or expand.  `hit` tells that the deadline passed meanwhile. */
  method VisitRoute(inst: Instance, eps: real, orders: seq<seq<nat>>, run: Run, round: nat, i: nat, reqs: seq<Request>,
                    expired: nat -> bool, ghost turn: seq<nat>)
    returns (run': Run, reqs': seq<Request>, progressed: bool, hit: bool, ghost turn': seq<nat>)
    requires BatchReady(inst, eps, orders) && Sized(orders, run, turn) && i < |orders|
    requires Visiting(inst, eps, orders, run, turn, round, i, reqs)
    ensures Sized(orders, run', turn') && run'.checks >= run.checks && run'.chunks == run.chunks && run'.requests == run.requests
    ensures !hit ==> Visiting(inst, eps, orders, run', turn', round, i + 1, reqs')
    ensures hit ==> run'.checks > 0 && expired(run'.checks - 1)
    ensures hit ==> CompletedDone(inst, eps, orders, run', turn', round)
    ensures hit ==> OrderRecorded(run'.completionOrder, run'.completionRounds)
    ensures !hit && !progressed ==> run'.completed[i] && reqs' == reqs
    ensures forall r | 0 <= r < |orders| && r != i :: run'.completed[r] == run.completed[r]
    ensures run.completed[i] ==> run'.completed[i]
    ensures !hit && progressed ==> !run'.completed[i]
    ensures !hit ==> |reqs'| == |reqs| + MovesIn(ProblemOf(inst, eps, orders, i), round)
    ensures !hit ==> run'.checks == run.checks + (if FoundIn(ProblemOf(inst, eps, orders, i), round) then 1 else 0)
    ensures hit ==> run'.checks == run.checks + 1 && FoundIn(ProblemOf(inst, eps, orders, i), round) && run'.completed == run.completed
    ensures !hit ==> forall e: nat | run.checks <= e < run'.checks :: !expired(e)
    ensures hit ==> Midway(inst, eps, orders, run', round)
  {
    hide Mirrors, Underway, LivePops, After, OrderRecorded, CompletedDone, Pending, Popped, Successors, For, MovesIn, FoundIn, Midway, InRound;
    run', reqs', progressed, hit, turn' := run, reqs, false, false, turn;
    if run.completed[i] {
      VisitDone(inst, eps, orders, run, turn, round, i, reqs);
      DoneIsQuiet(inst, eps, orders, run, turn, round, i, reqs);
      return;
    }
    var p := ProblemOf(inst, eps, orders, i);
    var c := run.states[i];
    ReadyToPop(inst, eps, orders, run, turn, round, i, reqs);
    ghost var m := PopLiveMirrors(p, c, turn[i]);
    var (popped, index) := PopLive(c);
    run' := run.(states := run.states[i := popped]);
    VisitedMoves(inst, eps, orders, run, turn, round, i, reqs, popped, index, m);
    if index.None? {
      var checks := run.checks;
      run' := run'.(checks := checks + 1);
      if expired(checks) {
        hit := true;
        StatesOnly(inst, eps, orders, run, run', turn, round);
        PoppedMidway(inst, eps, orders, run, run', turn, round, i, reqs, popped, m);
        return;
      }
      run' := Finish(run', i, popped, round);
      VisitFinished(inst, eps, orders, run, turn, round, i, reqs, popped, m);
      turn' := turn[i := m];
      ChecksOnly(inst, eps, orders, Finish(run, i, popped, round), run', turn', round, i + 1, reqs);
    } else {
      progressed := true;
      var id := index.value;
      PoppedShape(p, popped, id, m);
      turn' := turn[i := m + 1];
      if popped.best.Some? && popped.arena[id].distance >= popped.best.value.distance - p.eps {
        var cut := popped.(pruned := popped.pruned + 1);
        run' := run.(states := run.states[i := cut]);
        CutTurn(p, popped, id, m);
        VisitCut(inst, eps, orders, run, turn, round, i, reqs, cut, m + 1);
      } else {
        var expanded := popped.(expanded := popped.expanded + 1);
        run' := run.(states := run.states[i := expanded]);
        ExpandTurn(p, popped, id, m);
        var moves := Successors(p, ViewOf(expanded.arena, id));
        reqs' := reqs + RequestsFor(i, id, moves);
        ghost var s := After(p, m).(queue := Without(After(p, m).queue, MinIndex(After(p, m).queue)),
                                    expanded := After(p, m).expanded + 1);
        SuccessorsSome(p, ViewOf(expanded.arena, id));
        VisitExpanded(inst, eps, orders, run, turn, round, i, reqs, expanded, id, moves, m + 1, s);
      }
    }
  }

  /** A completed route makes no requests and is not found finished again. */
  lemma DoneIsQuiet(inst: Instance, eps: real, orders: seq<seq<nat>>, run: Run, turn: seq<nat>, round: nat, i: nat, reqs: seq<Request>)
    requires BatchReady(inst, eps, orders) && Sized(orders, run, turn) && i < |orders|
    requires Visiting(inst, eps, orders, run, turn, round, i, reqs) && run.completed[i]
    ensures MovesIn(ProblemOf(inst, eps, orders, i), round) == 0 && !FoundIn(ProblemOf(inst, eps, orders, i), round)
  {
    hide Mirrors, Underway, LivePops, After, OrderRecorded, Pending, MovesIn, RoundsOf;
    var p := ProblemOf(inst, eps, orders, i);
    FinishedIsFinal(p, turn[i]);
    FinishedIsQuiet(p, round);
  }

  /** What a route popped in a round does in it. */
  lemma VisitedMoves(inst: Instance, eps: real, orders: seq<seq<nat>>, run: Run, turn: seq<nat>, round: nat, i: nat, reqs: seq<Request>,
                     c: RouteSearch, index: Option<nat>, m: nat)
    requires BatchReady(inst, eps, orders) && Sized(orders, run, turn) && i < |orders|
    requires Visiting(inst, eps, orders, run, turn, round, i, reqs) && !run.completed[i]
    requires var p := ProblemOf(inst, eps, orders, i); Popped(p, c, index, m) && LivePops(p, m) == LivePops(p, turn[i])
    ensures var p := ProblemOf(inst, eps, orders, i);
      match index
      case None => FoundIn(p, round) && MovesIn(p, round) == 0
      case Some(id) =>
        && !FoundIn(p, round) && id < |c.arena| && Shaped(p, c) && ArenaShaped(c.arena)
        && MovesIn(p, round) == if c.best.Some? && c.arena[id].distance >= c.best.value.distance - p.eps then 0
                                else |Successors(p, ViewOf(c.arena, id))|
  {
    hide Mirrors, Underway, After, OrderRecorded, Pending, MovesIn, RoundsOf, Popped, LivePops, CompletedDone;
    var p := ProblemOf(inst, eps, orders, i);
    if index.None? {
      FoundNow(p, c, m, round);
    } else {
      PoppedShape(p, c, index.value, m);
      PoppedMoves(p, c, index.value, m, round);
    }
  }

  lemma FoundNow(p: Problem, c: RouteSearch, m: nat, round: nat)
    requires ValidProblem(p) && Popped(p, c, None, m) && LivePops(p, m) + 1 == round
    ensures FoundIn(p, round) && MovesIn(p, round) == 0
  {
    hide Mirrors, After, LivePops, RoundsOf, MovesIn;
    FinishedIsFinal(p, m);
    FinishedIsQuiet(p, round);
  }

  lemma PoppedMoves(p: Problem, c: RouteSearch, id: nat, m: nat, round: nat)
    requires ValidProblem(p) && Popped(p, c, Some(id), m) && LivePops(p, m) + 1 == round
    requires Shaped(p, c) && ArenaShaped(c.arena) && id < |c.arena|
    ensures !FoundIn(p, round)
    ensures MovesIn(p, round) == if c.best.Some? && c.arena[id].distance >= c.best.value.distance - p.eps then 0
                                 else |Successors(p, ViewOf(c.arena, id))|
  {
    hide Mirrors, After, LivePops, RoundsOf, MovesIn, Successors, PathOf;
    var s := After(p, m);
    CutMatches(p, c, s.(queue := Without(s.queue, MinIndex(s.queue))), id);
    assert TurnOf(p, round, m);
    OneTurn(p, round, m);
    if FoundIn(p, round) {
      LivePopStep(p, m);
      RoundsBounded(p, m + 1);
    }
  }

  lemma SuccessorsSome(p: Problem, l: Label)
    ensures Successors(p, l) != []
  {
  }

  lemma VisitDone(inst: Instance, eps: real, orders: seq<seq<nat>>, run: Run, turn: seq<nat>, round: nat, i: nat, reqs: seq<Request>)
    requires BatchReady(inst, eps, orders) && Sized(orders, run, turn) && i < |orders|
    requires Visiting(inst, eps, orders, run, turn, round, i, reqs) && run.completed[i]
    ensures Visiting(inst, eps, orders, run, turn, round, i + 1, reqs)
    ensures CompletedDone(inst, eps, orders, run, turn, round) && OrderRecorded(run.completionOrder, run.completionRounds)
  {
    hide Mirrors, Underway, LivePops, After, OrderRecorded, Pending;
  }

  lemma ReadyToPop(inst: Instance, eps: real, orders: seq<seq<nat>>, run: Run, turn: seq<nat>, round: nat, i: nat, reqs: seq<Request>)
    requires BatchReady(inst, eps, orders) && Sized(orders, run, turn) && i < |orders|
    requires Visiting(inst, eps, orders, run, turn, round, i, reqs) && !run.completed[i]
    ensures var p := ProblemOf(inst, eps, orders, i);
      ValidProblem(p) && Mirrors(p, run.states[i], After(p, turn[i])) && QueueInRange(run.states[i])
    ensures CompletedDone(inst, eps, orders, run, turn, round) && OrderRecorded(run.completionOrder, run.completionRounds)
  {
    hide Mirrors, LivePops, After, OrderRecorded, Pending, CompletedDone;
    ForNone(reqs, i);
    MirrorsShape(ProblemOf(inst, eps, orders, i), run.states[i], After(ProblemOf(inst, eps, orders, i), turn[i]));
  }

  lemma PoppedShape(p: Problem, c: RouteSearch, id: nat, m: nat)
    requires Runnable(p) && Popped(p, c, Some(id), m)
    ensures Shaped(p, c) && ArenaShaped(c.arena) && id < |c.arena|
  {
  }

  lemma StatesOnly(inst: Instance, eps: real, orders: seq<seq<nat>>, run: Run, run': Run, turn: seq<nat>, round: nat)
    requires BatchReady(inst, eps, orders) && Sized(orders, run, turn) && Sized(orders, run', turn)
    requires CompletedDone(inst, eps, orders, run, turn, round)
    requires run'.completed == run.completed && run'.completionRounds == run.completionRounds
    requires forall r | 0 <= r < |orders| && run.completed[r] :: run'.states[r] == run.states[r]
    ensures CompletedDone(inst, eps, orders, run', turn, round)
  {
    hide Mirrors, After, LivePops;
  }

  lemma ChecksOnly(inst: Instance, eps: real, orders: seq<seq<nat>>, run: Run, run': Run, turn: seq<nat>, round: nat, i: nat, reqs: seq<Request>)
    requires BatchReady(inst, eps, orders) && Sized(orders, run, turn) && Sized(orders, run', turn)
    requires Visiting(inst, eps, orders, run, turn, round, i, reqs)
    requires run' == run.(checks := run'.checks, chunks := run'.chunks, requests := run'.requests)
    ensures Visiting(inst, eps, orders, run', turn, round, i, reqs)
  {
    hide Underway, After, LivePops, Done, OrderRecorded;
  }

  /** The pass over all routes that opens a round. */
  method PopPhase(inst: Instance, eps: real, orders: seq<seq<nat>>, run: Run, round: nat, ghost batchSize: nat, expired: nat -> bool,
                  ghost turn: seq<nat>)
    returns (run': Run, reqs: seq<Request>, progressed: bool, hit: bool, ghost turn': seq<nat>)
    requires BatchReady(inst, eps, orders) && Sized(orders, run, turn) && round > 0 && Monotone(expired)
    requires AtRound(inst, eps, orders, run, turn, round - 1)
    requires batchSize > 0 && run.checks == RoundStart(inst, eps, orders, batchSize, round) && Unexpired(expired, run.checks)
    ensures Sized(orders, run', turn') && run'.chunks == run.chunks && run'.requests == run.requests && run'.checks >= run.checks
    ensures CompletedDone(inst, eps, orders, run', turn', round) && OrderRecorded(run'.completionOrder, run'.completionRounds)
    ensures !hit ==> InRound(inst, eps, orders, run', turn', round, |orders|, reqs)
    ensures hit ==> run'.checks > 0 && expired(run'.checks - 1)
    ensures !hit && !progressed ==> reqs == [] && forall r | 0 <= r < |orders| :: run'.completed[r]
    ensures !hit && progressed ==> exists r :: 0 <= r < |orders| && !run'.completed[r]
    ensures !hit ==> run'.checks == PassEnd(inst, eps, orders, batchSize, round) - 1 && Unexpired(expired, run'.checks)
    ensures !hit ==> |reqs| == Requested(inst, eps, orders, round, |orders|)
    ensures !hit ==> CompletedBefore(inst, eps, orders, run'.completed, round, |orders|)
    ensures hit ==> StoppedInPass(inst, eps, orders, batchSize, expired, run', round)
  {
    hide Mirrors, Underway, LivePops, After, OrderRecorded, CompletedDone, InRound, AtRound, Monotone, RoundStart, MovesIn, FoundIn, Settled,
         Visiting, CompletedBefore, FoundBelow, Requested, PassEnd, StoppedInPass, Midway;
    run', reqs, progressed, hit, turn' := run, [], false, false, turn;
    RoundBegins(inst, eps, orders, run, turn, round);
    PassBegins(inst, eps, orders, batchSize, round);
    ghost var runner: nat := 0;
    for i := 0 to |orders|
      invariant Sized(orders, run', turn') && run'.chunks == run.chunks && run'.requests == run.requests && !hit
      invariant run'.checks >= run.checks
      invariant Visiting(inst, eps, orders, run', turn', round, i, reqs)
      invariant !progressed ==> reqs == [] && forall r | 0 <= r < i :: run'.completed[r]
      invariant progressed ==> runner < i && !run'.completed[runner]
      invariant run'.checks == RoundStart(inst, eps, orders, batchSize, round) + i + FoundBelow(inst, eps, orders, round, i)
      invariant |reqs| == Requested(inst, eps, orders, round, i) && Unexpired(expired, run'.checks)
    {
      VisitingDone(inst, eps, orders, run', turn', round, i, reqs);
      var checks := run'.checks;
      ghost var before := run';
      run' := run'.(checks := checks + 1);
      ChecksOnly(inst, eps, orders, before, run', turn', round, i, reqs);
      VisitingDone(inst, eps, orders, run', turn', round, i, reqs);
      StatusByRound(inst, eps, orders, run', turn', round, i, reqs);
      PassGoesOn(inst, eps, orders, round, i);
      if expired(checks) {
        hit := true;
        RoundMidway(inst, eps, orders, run', turn', round, i, reqs);
        PassStopped(inst, eps, orders, batchSize, expired, run', round, i, checks);
        return;
      }
      var moved;
      run', reqs, moved, hit, turn' := VisitRoute(inst, eps, orders, run', round, i, reqs, expired, turn');
      if hit {
        PassStopped(inst, eps, orders, batchSize, expired, run', round, i, checks + 1);
        return;
      }
      if moved {
        progressed := true;
        runner := i;
      }
    }
    VisitingDone(inst, eps, orders, run', turn', round, |orders|, reqs);
    StatusByRound(inst, eps, orders, run', turn', round, |orders|, reqs);
  }

  lemma PassBegins(inst: Instance, eps: real, orders: seq<seq<nat>>, size: nat, round: nat)
    requires BatchReady(inst, eps, orders) && size > 0
    ensures FoundBelow(inst, eps, orders, round, 0) == 0 && Requested(inst, eps, orders, round, 0) == 0
    ensures PassEnd(inst, eps, orders, size, round)
      == RoundStart(inst, eps, orders, size, round) + |orders| + FoundBelow(inst, eps, orders, round, |orders|) + 1
  {
  }

  lemma PassGoesOn(inst: Instance, eps: real, orders: seq<seq<nat>>, round: nat, i: nat)
    requires BatchReady(inst, eps, orders) && i < |orders|
    ensures FoundBelow(inst, eps, orders, round, i + 1)
      == FoundBelow(inst, eps, orders, round, i) + if FoundIn(ProblemOf(inst, eps, orders, i), round) then 1 else 0
    ensures Requested(inst, eps, orders, round, i + 1)
      == Requested(inst, eps, orders, round, i) + MovesIn(ProblemOf(inst, eps, orders, i), round)
  {
    hide FoundIn, MovesIn;
  }

  /** The deadline was found passed in the pass of a round, at the last read. */
  ghost predicate StoppedInPass(inst: Instance, eps: real, orders: seq<seq<nat>>, size: nat, expired: nat -> bool, run: Run, round: nat)
    requires BatchReady(inst, eps, orders) && size > 0 && |run.completed| == |orders|
  {
    && run.checks > 0 && Unexpired(expired, run.checks - 1) && Settled(inst, eps, orders, size, expired, run.completed)
    && RoundStart(inst, eps, orders, size, round) < run.checks < PassEnd(inst, eps, orders, size, round)
    && |run.states| == |orders| && Midway(inst, eps, orders, run, round)
  }

  lemma PassStopped(inst: Instance, eps: real, orders: seq<seq<nat>>, size: nat, expired: nat -> bool, run: Run, round: nat, i: nat, e: nat)
    requires BatchReady(inst, eps, orders) && size > 0 && |run.completed| == |orders| && round > 0 && i < |orders| && Monotone(expired)
    requires CompletedBefore(inst, eps, orders, run.completed, round, i) && run.checks == e + 1 && Unexpired(expired, e) && expired(e)
    requires var at := RoundStart(inst, eps, orders, size, round) + i + FoundBelow(inst, eps, orders, round, i);
      e == at || (e == at + 1 && FoundIn(ProblemOf(inst, eps, orders, i), round))
    requires |run.states| == |orders| && Midway(inst, eps, orders, run, round)
    ensures StoppedInPass(inst, eps, orders, size, expired, run, round)
  {
    hide RoundStart, FoundIn, Settled, CompletedBefore, Monotone, Midway;
    FoundGrows(inst, eps, orders, round, i, |orders|);
    SettledAt(inst, eps, orders, size, expired, run.completed, round, i, e);
  }

  /** Within a pass the routes completed are those found finished before. */
  lemma StatusByRound(inst: Instance, eps: real, orders: seq<seq<nat>>, run: Run, turn: seq<nat>, round: nat, i: nat, reqs: seq<Request>)
    requires BatchReady(inst, eps, orders) && Sized(orders, run, turn) && i <= |orders| && Visiting(inst, eps, orders, run, turn, round, i, reqs)
    ensures CompletedBefore(inst, eps, orders, run.completed, round, i)
  {
    hide Mirrors, Underway, LivePops, After, OrderRecorded, RoundsOf, Halts;
    forall r | 0 <= r < |orders|
      ensures var p := ProblemOf(inst, eps, orders, r);
        run.completed[r] <==> Halts(p) && (RoundsOf(p) < round || (RoundsOf(p) == round && r < i))
    {
      var p := ProblemOf(inst, eps, orders, r);
      if run.completed[r] {
        FinishedIsFinal(p, turn[r]);
      } else if Halts(p) {
        RoundsBounded(p, turn[r]);
      }
    }
  }

  lemma RoundBegins(inst: Instance, eps: real, orders: seq<seq<nat>>, run: Run, turn: seq<nat>, round: nat)
    requires BatchReady(inst, eps, orders) && Sized(orders, run, turn) && round > 0
    requires AtRound(inst, eps, orders, run, turn, round - 1)
    ensures Visiting(inst, eps, orders, run, turn, round, 0, [])
  {
    hide Mirrors, LivePops, After, OrderRecorded;
  }

  lemma VisitingDone(inst: Instance, eps: real, orders: seq<seq<nat>>, run: Run, turn: seq<nat>, round: nat, i: nat, reqs: seq<Request>)
    requires BatchReady(inst, eps, orders) && Sized(orders, run, turn) && Visiting(inst, eps, orders, run, turn, round, i, reqs)
    ensures CompletedDone(inst, eps, orders, run, turn, round) && OrderRecorded(run.completionOrder, run.completionRounds)
    ensures InRound(inst, eps, orders, run, turn, round, i, reqs)
  {
  }

  // ---- working off the requests --------------------------------------------------------------------------

  lemma RequestReady(inst: Instance, eps: real, orders: seq<seq<nat>>, run: Run, turn: seq<nat>, round: nat, reqs: seq<Request>)
    requires BatchReady(inst, eps, orders) && Sized(orders, run, turn) && reqs != []
    requires InRound(inst, eps, orders, run, turn, round, |orders|, reqs)
    ensures reqs[0].route < |orders| && !run.completed[reqs[0].route]
    ensures var q := reqs[0];
      && Shaped(ProblemOf(inst, eps, orders, q.route), run.states[q.route]) && q.index < |run.states[q.route].arena|
      && KeyInRange(ProblemOf(inst, eps, orders, q.route), q.key)
      && Underway(ProblemOf(inst, eps, orders, q.route), Handle(ProblemOf(inst, eps, orders, q.route), run.states[q.route], q.index, q.key),
                  reqs[1..], q.route, turn[q.route])
  {
    hide Mirrors, LivePops, After, OrderRecorded, CompletedDone, Handle, Relax, RelaxAll;
    var q := reqs[0];
    assert q in reqs;
    var p, c, ks := ProblemOf(inst, eps, orders, q.route), run.states[q.route], For(reqs, q.route);
    var index, s :| FromLabel(reqs, q.route, index) && Pending(p, c, index, ks, After(p, turn[q.route]), s);
    assert ks[0] == q.key && ks[1..] == For(reqs[1..], q.route);
    PendingStep(p, c, index, ks, After(p, turn[q.route]), s);
    NextUnderway(p, Handle(p, c, index, ks[0]), reqs, q.route, index, turn[q.route], Relax(p, ViewOf(c.arena, index), ks[0], s));
  }

  lemma NextUnderway(p: Problem, c: RouteSearch, reqs: seq<Request>, r: nat, index: nat, t: nat, s: SearchState)
    requires Runnable(p) && reqs != [] && FromLabel(reqs, r, index)
    requires Pending(p, c, index, For(reqs[1..], r), After(p, t), s)
    ensures Underway(p, c, reqs[1..], r, t)
  {
    hide Mirrors, After;
    if For(reqs[1..], r) == [] {
      PendingDone(p, c, index, After(p, t), s);
    } else {
      assert FromLabel(reqs[1..], r, index);
    }
  }

  lemma RequestHandled(inst: Instance, eps: real, orders: seq<seq<nat>>, run: Run, turn: seq<nat>, round: nat, reqs: seq<Request>, c: RouteSearch)
    requires BatchReady(inst, eps, orders) && Sized(orders, run, turn) && reqs != []
    requires InRound(inst, eps, orders, run, turn, round, |orders|, reqs)
    requires reqs[0].route < |orders| && !run.completed[reqs[0].route]
    requires Underway(ProblemOf(inst, eps, orders, reqs[0].route), c, reqs[1..], reqs[0].route, turn[reqs[0].route])
    ensures var run' := run.(states := run.states[reqs[0].route := c]);
      Sized(orders, run', turn) && InRound(inst, eps, orders, run', turn, round, |orders|, reqs[1..])
  {
    hide Mirrors, LivePops, After, OrderRecorded, Pending;
    var r := reqs[0].route;
    var run' := run.(states := run.states[r := c]);
    forall o | 0 <= o < |orders| && !run.completed[o] && o != r
      ensures Underway(ProblemOf(inst, eps, orders, o), run.states[o], reqs[1..], o, turn[o])
    {
      assert For(reqs, o) == For(reqs[1..], o);
      assert forall i | 0 <= i < |reqs[1..]| :: reqs[1..][i] == reqs[i + 1];
      assert forall index :: FromLabel(reqs, o, index) ==> FromLabel(reqs[1..], o, index);
    }
    assert CompletedDone(inst, eps, orders, run', turn, round);
    assert forall q | q in reqs[1..] :: q in reqs;
  }

  /** The requests of a round, in batches of at most `batchSize`, with a deadline check before each batch. */
  method RequestPhase(inst: Instance, eps: real, orders: seq<seq<nat>>, run: Run, round: nat, reqs: seq<Request>, batchSize: nat,
                      expired: nat -> bool, ghost turn: seq<nat>)
    returns (run': Run, hit: bool)
    requires BatchReady(inst, eps, orders) && Sized(orders, run, turn) && batchSize > 0 && round > 0 && Monotone(expired)
    requires InRound(inst, eps, orders, run, turn, round, |orders|, reqs)
    requires run.checks == PassEnd(inst, eps, orders, batchSize, round) && Unexpired(expired, run.checks)
    requires |reqs| == Requested(inst, eps, orders, round, |orders|) && Worked(inst, eps, orders, batchSize, run, round - 1)
    requires CompletedBefore(inst, eps, orders, run.completed, round, |orders|)
    ensures Sized(orders, run', turn) && run'.completed == run.completed && run'.checks >= run.checks
    ensures !hit ==> run'.checks == RoundStart(inst, eps, orders, batchSize, round + 1) && Unexpired(expired, run'.checks)
    ensures !hit ==> Worked(inst, eps, orders, batchSize, run', round)
    ensures hit ==> Concluded(inst, eps, orders, batchSize, expired, run')
    ensures CompletedDone(inst, eps, orders, run', turn, round) && OrderRecorded(run'.completionOrder, run'.completionRounds)
    ensures !hit ==> AtRound(inst, eps, orders, run', turn, round)
    ensures hit ==> run'.checks > 0 && expired(run'.checks - 1)
  {
    hide Mirrors, Underway, LivePops, After, OrderRecorded, CompletedDone, InRound, AtRound, Handle, Concluded, Requested, Settled, Monotone,
         CompletedBefore, PassEnd, Worked, BatchesOf, Midway;
    run', hit := run, false;
    NextStart(inst, eps, orders, batchSize, run, round);
    var offset := 0;
    assert reqs[0..] == reqs;
    InRoundDone(inst, eps, orders, run', turn, round, reqs);
    while offset < |reqs|
      invariant 0 <= offset <= |reqs| && !hit && run'.checks >= run.checks
      invariant run'.checks == run.checks + (run'.chunks - run.chunks) && run'.requests == run.requests + offset
      invariant run'.chunks >= run.chunks && run'.chunks - run.chunks + BatchesOf(|reqs| - offset, batchSize) == BatchesOf(|reqs|, batchSize)
      invariant Unexpired(expired, run'.checks)
      invariant Sized(orders, run', turn) && run'.completed == run.completed
      invariant InRound(inst, eps, orders, run', turn, round, |orders|, reqs[offset..])
      decreases |reqs| - offset
    {
      var checks := run'.checks;
      ghost var before := run';
      run' := run'.(checks := checks + 1);
      InRoundCounters(inst, eps, orders, before, run', turn, round, reqs[offset..]);
      InRoundDone(inst, eps, orders, run', turn, round, reqs[offset..]);
      OneBatch(|reqs| - offset, batchSize);
      if expired(checks) {
        hit := true;
        RoundMidway(inst, eps, orders, run', turn, round, |orders|, reqs[offset..]);
        BatchesStopped(inst, eps, orders, batchSize, expired, run, run', round, checks);
        return;
      }
      var chunkEnd := if offset + batchSize < |reqs| then offset + batchSize else |reqs|;
      before := run';
      run' := run'.(chunks := run'.chunks + 1, requests := run'.requests + (chunkEnd - offset));
      InRoundCounters(inst, eps, orders, before, run', turn, round, reqs[offset..]);
      for i := offset to chunkEnd
        invariant Sized(orders, run', turn) && run'.completed == run.completed && run'.checks == checks + 1
        invariant run'.chunks == before.chunks + 1 && run'.requests == before.requests + (chunkEnd - offset)
        invariant InRound(inst, eps, orders, run', turn, round, |orders|, reqs[i..])
      {
        var q := reqs[i];
        assert reqs[i..][0] == q && reqs[i..][1..] == reqs[i + 1..];
        RequestReady(inst, eps, orders, run', turn, round, reqs[i..]);
        var c := Handle(ProblemOf(inst, eps, orders, q.route), run'.states[q.route], q.index, q.key);
        RequestHandled(inst, eps, orders, run', turn, round, reqs[i..], c);
        run' := run'.(states := run'.states[q.route := c]);
      }
      offset := chunkEnd;
    }
    assert reqs[offset..] == [];
    OneBatch(0, batchSize);
    RoundEnds(inst, eps, orders, run', turn, round);
    WorkedNext(inst, eps, orders, batchSize, run, run', round);
  }

  /** Batches and requests of the first rounds are counted. */
  ghost predicate Worked(inst: Instance, eps: real, orders: seq<seq<nat>>, size: nat, run: Run, round: nat)
    requires BatchReady(inst, eps, orders) && size > 0
  {
    run.chunks == BatchesThrough(inst, eps, orders, size, round) && run.requests == RequestsThrough(inst, eps, orders, round)
  }

  /** The counters of the routes cut off at read `e` of a round. */
  ghost predicate CutOff(inst: Instance, eps: real, orders: seq<seq<nat>>, completed: seq<bool>, counters: seq<Counters>, round: nat, e: nat)
    requires BatchReady(inst, eps, orders) && |completed| == |counters| == |orders|
  {
    forall r | 0 <= r < |orders| && !completed[r] ::
      if round == 0 then counters[r] == if e <= |orders| then Counters(0, 0, 0) else Counters(1, 0, 0)
      else MidRoute(ProblemOf(inst, eps, orders, r), counters[r].generated, counters[r].expanded, counters[r].pruned, round)
  }

  /** What was spent until the deadline was found passed, or until all routes were completed. */
  ghost predicate Spent(inst: Instance, eps: real, orders: seq<seq<nat>>, size: nat, expired: nat -> bool,
                        checks: nat, batches: nat, requests: nat, completed: seq<bool>, counters: seq<Counters>)
    requires BatchReady(inst, eps, orders) && size > 0 && |completed| == |counters| == |orders|
  {
    || (exists round, e :: StoppedAt(inst, eps, orders, size, expired, checks, batches, requests, round, e)
                           && CutOff(inst, eps, orders, completed, counters, round, e))
    || (exists round :: EndedIn(inst, eps, orders, size, expired, checks, batches, requests, round))
  }

  function CountersOf(run: Run): (s: seq<Counters>)
    ensures |s| == |run.states|
    ensures forall r | 0 <= r < |s| :: s[r] == Counters(run.states[r].generated, run.states[r].expanded, run.states[r].pruned)
  {
    seq(|run.states|, r requires 0 <= r < |run.states| =>
      Counters(run.states[r].generated, run.states[r].expanded, run.states[r].pruned))
  }

  /** The run is over: who is completed is settled, and reads, batches, requests and counters are as they must be. */
  ghost predicate Concluded(inst: Instance, eps: real, orders: seq<seq<nat>>, size: nat, expired: nat -> bool, run: Run)
    requires BatchReady(inst, eps, orders) && size > 0
  {
    && |run.completed| == |run.states| == |orders| && Settled(inst, eps, orders, size, expired, run.completed)
    && Spent(inst, eps, orders, size, expired, run.checks, run.chunks, run.requests, run.completed, CountersOf(run))
  }

  /** The routes not completed stand at a turn of the round. */
  ghost predicate Midway(inst: Instance, eps: real, orders: seq<seq<nat>>, run: Run, round: nat)
    requires BatchReady(inst, eps, orders) && |run.states| == |run.completed| == |orders|
  {
    forall r | 0 <= r < |orders| && !run.completed[r] ::
      MidRoute(ProblemOf(inst, eps, orders, r), run.states[r].generated, run.states[r].expanded, run.states[r].pruned, round)
  }

  lemma RouteMidway(p: Problem, c: RouteSearch, reqs: seq<Request>, r: nat, t: nat, round: nat)
    requires ValidProblem(p) && Underway(p, c, reqs, r, t) && (LivePops(p, t) == round || LivePops(p, t) + 1 == round)
    ensures MidRoute(p, c.generated, c.expanded, c.pruned, round)
  {
    hide Mirrors, After, LivePops, Pending, MidRoute;
    if For(reqs, r) == [] {
      MirrorAtTurn(p, c, t, round);
    } else {
      var index, s :| FromLabel(reqs, r, index) && Pending(p, c, index, For(reqs, r), After(p, t), s);
      PendingAtTurn(p, c, index, For(reqs, r), t, s, round);
    }
  }

  lemma RoundMidway(inst: Instance, eps: real, orders: seq<seq<nat>>, run: Run, turn: seq<nat>, round: nat, i: nat, reqs: seq<Request>)
    requires BatchReady(inst, eps, orders) && Sized(orders, run, turn) && InRound(inst, eps, orders, run, turn, round, i, reqs)
    ensures Midway(inst, eps, orders, run, round)
  {
    hide Underway, LivePops, After, MidRoute, CompletedDone, OrderRecorded;
    forall r | 0 <= r < |orders| && !run.completed[r]
      ensures MidRoute(ProblemOf(inst, eps, orders, r), run.states[r].generated, run.states[r].expanded, run.states[r].pruned, round)
    {
      RouteMidway(ProblemOf(inst, eps, orders, r), run.states[r], reqs, r, turn[r], round);
    }
  }

  /** A route that is found finished by a read too late stands where it stood. */
  lemma PoppedMidway(inst: Instance, eps: real, orders: seq<seq<nat>>, run: Run, run': Run, turn: seq<nat>, round: nat, i: nat,
                     reqs: seq<Request>, c: RouteSearch, m: nat)
    requires BatchReady(inst, eps, orders) && Sized(orders, run, turn) && i < |orders| && !run.completed[i]
    requires InRound(inst, eps, orders, run, turn, round, i, reqs)
    requires Popped(ProblemOf(inst, eps, orders, i), c, None, m)
    requires LivePops(ProblemOf(inst, eps, orders, i), m) == LivePops(ProblemOf(inst, eps, orders, i), turn[i])
    requires run'.completed == run.completed && run'.states == run.states[i := c]
    ensures Midway(inst, eps, orders, run', round)
  {
    hide Underway, LivePops, After, MidRoute, CompletedDone, OrderRecorded, Mirrors;
    RoundMidway(inst, eps, orders, run, turn, round, i, reqs);
    MirrorAtTurn(ProblemOf(inst, eps, orders, i), c, m, round);
  }

  lemma MidwayCut(inst: Instance, eps: real, orders: seq<seq<nat>>, run: Run, round: nat, e: nat)
    requires BatchReady(inst, eps, orders) && |run.states| == |run.completed| == |orders| && Midway(inst, eps, orders, run, round) && round > 0
    ensures CutOff(inst, eps, orders, run.completed, CountersOf(run), round, e)
  {
    hide MidRoute;
  }

  lemma OneBatch(requests: nat, size: nat)
    requires size > 0
    ensures requests == 0 ==> BatchesOf(requests, size) == 0
    ensures 0 < requests <= size ==> BatchesOf(requests, size) == 1 && BatchesOf(0, size) == 0
    ensures requests > size ==> BatchesOf(requests, size) == 1 + BatchesOf(requests - size, size)
  {
  }

  lemma NextStart(inst: Instance, eps: real, orders: seq<seq<nat>>, size: nat, run: Run, round: nat)
    requires BatchReady(inst, eps, orders) && size > 0 && round > 0
    ensures RoundStart(inst, eps, orders, size, round + 1)
      == PassEnd(inst, eps, orders, size, round) + BatchesOf(Requested(inst, eps, orders, round, |orders|), size)
  {
  }

  lemma WorkedNext(inst: Instance, eps: real, orders: seq<seq<nat>>, size: nat, run: Run, run': Run, round: nat)
    requires BatchReady(inst, eps, orders) && size > 0 && round > 0 && Worked(inst, eps, orders, size, run, round - 1)
    requires var requests := Requested(inst, eps, orders, round, |orders|);
      run'.chunks == run.chunks + BatchesOf(requests, size) && run'.requests == run.requests + requests
    ensures Worked(inst, eps, orders, size, run', round)
  {
    hide Requested, BatchesOf;
  }

  lemma BatchesStopped(inst: Instance, eps: real, orders: seq<seq<nat>>, size: nat, expired: nat -> bool, run: Run, run': Run, round: nat, e: nat)
    requires BatchReady(inst, eps, orders) && size > 0 && round > 0 && Monotone(expired) && |run'.completed| == |orders|
    requires CompletedBefore(inst, eps, orders, run'.completed, round, |orders|) && Unexpired(expired, e) && expired(e)
    requires Worked(inst, eps, orders, size, run, round - 1)
    requires PassEnd(inst, eps, orders, size, round) <= e < RoundStart(inst, eps, orders, size, round + 1) && run'.checks == e + 1
    requires run'.chunks == run.chunks + (e - PassEnd(inst, eps, orders, size, round))
    requires run.requests <= run'.requests <= run.requests + Requested(inst, eps, orders, round, |orders|)
    requires |run'.states| == |orders| && Midway(inst, eps, orders, run', round)
    ensures Concluded(inst, eps, orders, size, expired, run')
  {
    hide Requested, BatchesOf, RoundStart, FoundBelow, Settled, Monotone, CompletedBefore, Midway, CutOff;
    MidwayCut(inst, eps, orders, run', round, e);
    SettledAt(inst, eps, orders, size, expired, run'.completed, round, |orders|, e);
    assert StoppedAt(inst, eps, orders, size, expired, run'.checks, run'.chunks, run'.requests, round, e);
  }

  /** The deadline was found passed in a pass, and is read again after it. */
  lemma PassConcluded(inst: Instance, eps: real, orders: seq<seq<nat>>, size: nat, expired: nat -> bool, run: Run, round: nat)
    requires BatchReady(inst, eps, orders) && size > 0 && round > 0 && |run.completed| == |orders|
    requires StoppedInPass(inst, eps, orders, size, expired, run, round) && expired(run.checks - 1) && Worked(inst, eps, orders, size, run, round - 1)
    ensures Concluded(inst, eps, orders, size, expired, run.(checks := run.checks + 1))
  {
    hide Requested, BatchesOf, RoundStart, FoundBelow, Settled, Midway, CutOff;
    NextStart(inst, eps, orders, size, run, round);
    MidwayCut(inst, eps, orders, run, round, run.checks - 1);
    assert CountersOf(run.(checks := run.checks + 1)) == CountersOf(run);
    assert StoppedAt(inst, eps, orders, size, expired, run.checks + 1, run.chunks, run.requests, round, run.checks - 1);
  }

  /** The deadline is found passed after a pass. */
  lemma AfterPassConcluded(inst: Instance, eps: real, orders: seq<seq<nat>>, size: nat, expired: nat -> bool, run: Run, round: nat)
    requires BatchReady(inst, eps, orders) && size > 0 && round > 0 && |run.completed| == |orders| && Monotone(expired)
    requires run.checks == PassEnd(inst, eps, orders, size, round) && Unexpired(expired, run.checks - 1) && expired(run.checks - 1)
    requires CompletedBefore(inst, eps, orders, run.completed, round, |orders|) && Worked(inst, eps, orders, size, run, round - 1)
    requires |run.states| == |orders| && Midway(inst, eps, orders, run, round)
    ensures Concluded(inst, eps, orders, size, expired, run)
  {
    hide Requested, BatchesOf, RoundStart, FoundBelow, Settled, Monotone, CompletedBefore, Midway, CutOff;
    MidwayCut(inst, eps, orders, run, round, run.checks - 1);
    NextStart(inst, eps, orders, size, run, round);
    SettledAt(inst, eps, orders, size, expired, run.completed, round, |orders|, run.checks - 1);
    assert StoppedAt(inst, eps, orders, size, expired, run.checks, run.chunks, run.requests, round, run.checks - 1);
  }

  /** The deadline is found passed before the first round. */
  lemma EarlyConcluded(inst: Instance, eps: real, orders: seq<seq<nat>>, size: nat, expired: nat -> bool, completed: seq<bool>,
                       counters: seq<Counters>, e: nat)
    requires BatchReady(inst, eps, orders) && size > 0 && |completed| == |counters| == |orders| && Monotone(expired)
    requires Unexpired(expired, e) && expired(e) && e < |orders| + 2 && forall r | 0 <= r < |orders| :: !completed[r]
    requires forall r | 0 <= r < |orders| :: counters[r] == if e <= |orders| then Counters(0, 0, 0) else Counters(1, 0, 0)
    ensures Settled(inst, eps, orders, size, expired, completed)
    ensures Spent(inst, eps, orders, size, expired, e + 1, 0, 0, completed, counters)
  {
    hide Settled, RoundStart, BatchesThrough, RequestsThrough, PassEnd, MidRoute;
    SettledEarly(inst, eps, orders, size, expired, completed, e);
    assert StoppedAt(inst, eps, orders, size, expired, e + 1, 0, 0, 0, e);
    assert CutOff(inst, eps, orders, completed, counters, 0, e);
  }

  /** All routes are completed. */
  lemma AllConcluded(inst: Instance, eps: real, orders: seq<seq<nat>>, size: nat, expired: nat -> bool, run: Run, round: nat)
    requires BatchReady(inst, eps, orders) && size > 0 && round > 0 && |run.completed| == |orders|
    requires run.checks == PassEnd(inst, eps, orders, size, round) && Unexpired(expired, run.checks)
    requires CompletedBefore(inst, eps, orders, run.completed, round, |orders|) && Worked(inst, eps, orders, size, run, round - 1)
    requires forall r | 0 <= r < |orders| :: run.completed[r]
    requires |run.states| == |orders|
    ensures Concluded(inst, eps, orders, size, expired, run)
  {
    hide CutOff, Requested, BatchesOf, PassEnd, RoundStart, FoundBelow, Settled, Halts, RoundsOf;
    SettledAll(inst, eps, orders, size, expired, run.completed, round);
    assert EndedIn(inst, eps, orders, size, expired, run.checks, run.chunks, run.requests, round);
  }

  lemma InRoundDone(inst: Instance, eps: real, orders: seq<seq<nat>>, run: Run, turn: seq<nat>, round: nat, reqs: seq<Request>)
    requires BatchReady(inst, eps, orders) && Sized(orders, run, turn) && InRound(inst, eps, orders, run, turn, round, |orders|, reqs)
    ensures CompletedDone(inst, eps, orders, run, turn, round) && OrderRecorded(run.completionOrder, run.completionRounds)
  {
  }

  lemma InRoundCounters(inst: Instance, eps: real, orders: seq<seq<nat>>, run: Run, run': Run, turn: seq<nat>, round: nat, reqs: seq<Request>)
    requires BatchReady(inst, eps, orders) && Sized(orders, run, turn) && Sized(orders, run', turn)
    requires InRound(inst, eps, orders, run, turn, round, |orders|, reqs)
    requires run' == run.(checks := run'.checks, chunks := run'.chunks, requests := run'.requests)
    ensures InRound(inst, eps, orders, run', turn, round, |orders|, reqs)
  {
    hide Underway, After, LivePops, Done, OrderRecorded;
  }

  lemma RoundEnds(inst: Instance, eps: real, orders: seq<seq<nat>>, run: Run, turn: seq<nat>, round: nat)
    requires BatchReady(inst, eps, orders) && Sized(orders, run, turn) && InRound(inst, eps, orders, run, turn, round, |orders|, [])
    ensures AtRound(inst, eps, orders, run, turn, round)
    ensures CompletedDone(inst, eps, orders, run, turn, round) && OrderRecorded(run.completionOrder, run.completionRounds)
  {
    hide Mirrors, LivePops, After, OrderRecorded, CompletedDone;
  }

  // ---- the output ----------------------------------------------------------------------------------------

  /** One executed chunk of a parallel run; timings relative to the dispatch. */
  datatype TaskRow = TaskRow(task: nat, worker: int, first: nat, last: nat, submitted: nat, started: nat, finished: nat)

  /** Ten counters: routes, routes, completed, interrupted, calls, batches, requests, deadline checks, calls, batch size. */
  datatype BatchOutput = BatchOutput(pathOffsets: seq<nat>, pathIndices: seq<nat>, statuses: seq<Status>,
                                     reasons: seq<Reason>, metrics: seq<Metrics>, labelCounters: seq<Counters>,
                                     counters: seq<nat>, completionOrder: seq<nat>, completionRounds: seq<int>,
                                     physicalOrder: seq<nat>, tasks: seq<TaskRow>)

  datatype Row = Row(status: Status, reason: Reason, metrics: Metrics, path: seq<nat>, counters: Counters)

  const ZERO_METRICS := Metrics(Finite(0.0), 0.0, 0.0, 0.0)

  /** The row of a finished search. */
  function RowOf(st: SearchState): Row {
    var counters := Counters(st.generated, st.expanded, st.pruned);
    match st.best
    case None => Row(InfeasibleStatus, NoPattern, Metrics(Infinite, 0.0, 0.0, 0.0), [], counters)
    case Some(b) => Row(FeasibleStatus, NoReason, Metrics(Finite(b.distance), b.energy, b.charged, b.chargeTime), b.path, counters)
  }

  function Flat(paths: seq<seq<nat>>): seq<nat> {
    if paths == [] then [] else Flat(paths[..|paths| - 1]) + paths[|paths| - 1]
  }

  /** The offsets that mark the paths in their concatenation. */
  ghost predicate OffsetsMark(offsets: seq<nat>, paths: seq<seq<nat>>) {
    |offsets| == |paths| + 1 && forall r | 0 <= r <= |paths| :: offsets[r] == |Flat(paths[..r])|
  }

  predicate Columns(out: BatchOutput, n: nat) {
    |out.statuses| == |out.reasons| == |out.metrics| == |out.labelCounters| == |out.completionRounds| == n
  }

  /** Row `r` of the output, with the path it marks. */
  predicate HoldsRow(out: BatchOutput, r: nat, row: Row)
    requires Columns(out, |out.statuses|) && r < |out.statuses|
  {
    && out.statuses[r] == row.status && out.reasons[r] == row.reason && out.metrics[r] == row.metrics
    && out.labelCounters[r] == row.counters
  }

  /** One route: interrupted, with an empty row, or exactly the row, path and round of its search run alone. */
  ghost predicate Reported(p: Problem, status: Status, reason: Reason, metrics: Metrics, counters: Counters, round: int,
                           path: seq<nat>)
    requires Runnable(p)
  {
    if status.InterruptedStatus? then reason == DeadlinePassed && metrics == ZERO_METRICS && path == [] && round == -1
    else
      Halts(p) &&
      var row := RowOf(FinalOf(p));
      && status == row.status && reason == row.reason && metrics == row.metrics && counters == row.counters
      && path == row.path && round == RoundsOf(p)
  }

  /** What a batch returns: every route is either interrupted, with an empty row, or has exactly the row, the path
      and the round of its search run alone; the order lists the completed ones by round. */
  ghost predicate Reports(inst: Instance, eps: real, orders: seq<seq<nat>>, out: BatchOutput, paths: seq<seq<nat>>)
    requires BatchReady(inst, eps, orders)
  {
    && Columns(out, |orders|) && |paths| == |orders|
    && OffsetsMark(out.pathOffsets, paths) && out.pathIndices == Flat(paths)
    && (forall r | 0 <= r < |orders| ::
          Reported(ProblemOf(inst, eps, orders, r), out.statuses[r], out.reasons[r], out.metrics[r], out.labelCounters[r],
                   out.completionRounds[r], paths[r]))
    && OrderRecorded(out.completionOrder, out.completionRounds)
  }

  /** The counters of the run. */
  ghost predicate Counted(out: BatchOutput, n: nat, batchSize: nat) {
    && |out.counters| == 10 && |out.completionOrder| <= n
    && out.counters[0] == out.counters[1] == n && out.counters[2] == |out.completionOrder|
    && out.counters[3] == n - |out.completionOrder| && out.counters[4] == out.counters[8] == (if n == 0 then 0 else 1)
    && out.counters[9] == batchSize
  }

  lemma CompletedBound(order: seq<nat>, rounds: seq<int>)
    requires OrderRecorded(order, rounds)
    ensures |order| <= |rounds|
  {
    forall i, j | 0 <= i < j < |order| ensures order[i] != order[j] { assert Earlier(rounds, order[i], order[j]); }
    Pigeonhole(order, |rounds|);
  }

  lemma {:induction false} FlatEmpty(paths: seq<seq<nat>>)
    requires forall r | 0 <= r < |paths| :: paths[r] == []
    ensures Flat(paths) == []
  {
    if paths != [] { FlatEmpty(paths[..|paths| - 1]); }
  }

  /** The output when the deadline passed before the search began. */
  function NothingDone(n: nat, checks: nat, batchSize: nat): BatchOutput {
    BatchOutput(seq(n + 1, i => 0), [], seq(n, i => InterruptedStatus), seq(n, i => DeadlinePassed),
                seq(n, i => ZERO_METRICS), seq(n, i => Counters(0, 0, 0)),
                [n, n, 0, n, if n == 0 then 0 else 1, 0, 0, checks, if n == 0 then 0 else 1, batchSize],
                [], seq(n, i => -1), [], [])
  }

  lemma NothingReported(inst: Instance, eps: real, orders: seq<seq<nat>>, checks: nat, batchSize: nat)
    requires BatchReady(inst, eps, orders)
    ensures var out := NothingDone(|orders|, checks, batchSize);
      Reports(inst, eps, orders, out, seq(|orders|, i => [])) && Counted(out, |orders|, batchSize)
  {
    hide FinalOf, RoundsOf, RowOf, Flat, OffsetsMark, Halts, Reported, OrderRecorded, Metric;
    NoPaths(|orders|);
    var out := NothingDone(|orders|, checks, batchSize);
    NoneRecorded(|orders|);
    forall r | 0 <= r < |orders|
      ensures Reported(ProblemOf(inst, eps, orders, r), out.statuses[r], out.reasons[r], out.metrics[r], out.labelCounters[r],
                       out.completionRounds[r], [])
    {
      InterruptedReported(ProblemOf(inst, eps, orders, r), out.labelCounters[r]);
    }
  }

  lemma NoneRecorded(n: nat)
    ensures OrderRecorded([], seq(n, i => -1))
  {
  }

  lemma InterruptedReported(p: Problem, counters: Counters)
    requires Runnable(p)
    ensures Reported(p, InterruptedStatus, DeadlinePassed, ZERO_METRICS, counters, -1, [])
  {
  }

  lemma NoPaths(n: nat)
    ensures var paths: seq<seq<nat>> := seq(n, i => []); OffsetsMark(seq(n + 1, i => 0), paths) && Flat(paths) == []
  {
    hide Flat;
    var paths: seq<seq<nat>> := seq(n, i => []);
    forall r | 0 <= r <= n ensures |Flat(paths[..r])| == 0 { FlatEmpty(paths[..r]); }
    FlatEmpty(paths);
  }

  /** Rows of the first `n` routes, and defaults beyond. */
  ghost predicate RowsWritten(inst: Instance, eps: real, orders: seq<seq<nat>>, run: Run, out: BatchOutput, paths: seq<seq<nat>>, n: nat)
    requires BatchReady(inst, eps, orders)
  {
    && Columns(out, |orders|) && |run.completed| == |run.states| == |orders| && |paths| == n <= |orders|
    && (forall r | 0 <= r < n ::
          if !run.completed[r] then out.reasons[r] == DeadlinePassed && out.metrics[r] == ZERO_METRICS
                                    && out.labelCounters[r] == Counters(run.states[r].generated, run.states[r].expanded, run.states[r].pruned)
                                    && out.statuses[r].InterruptedStatus? && paths[r] == []
          else Halts(ProblemOf(inst, eps, orders, r)) && HoldsRow(out, r, RowOf(FinalOf(ProblemOf(inst, eps, orders, r))))
               && paths[r] == RowOf(FinalOf(ProblemOf(inst, eps, orders, r))).path)
    && (forall r | n <= r < |orders| ::
          out.statuses[r].InterruptedStatus? && out.reasons[r] == DeadlinePassed && out.metrics[r] == ZERO_METRICS)
  }

  /** Offsets while they are written: the end of every non-empty path, and zero elsewhere. */
  ghost predicate EndsWritten(offsets: seq<nat>, paths: seq<seq<nat>>, n: nat) {
    && |offsets| == n + 1 && |paths| <= n && offsets[0] == 0
    && (forall r | 0 <= r < |paths| :: offsets[r + 1] == if paths[r] == [] then 0 else |Flat(paths[..r + 1])|)
    && (forall r | |paths| < r <= n :: offsets[r] == 0)
  }

  /** The pass that carries each offset over empty paths. */
  method CarryOffsets(offsets: seq<nat>, ghost paths: seq<seq<nat>>) returns (carried: seq<nat>)
    requires EndsWritten(offsets, paths, |paths|)
    ensures OffsetsMark(carried, paths)
  {
    carried := offsets;
    assert paths[..0] == [];
    for r := 0 to |offsets| - 1
      invariant |carried| == |offsets|
      invariant forall j | 0 <= j <= r :: carried[j] == |Flat(paths[..j])|
      invariant forall j | r < j < |offsets| :: carried[j] == offsets[j]
    {
      assert paths[..r + 1][..r] == paths[..r];
      assert paths[r] != [] ==> |Flat(paths[..r + 1])| > 0;
      if carried[r + 1] == 0 {
        carried := carried[r + 1 := carried[r]];
      }
    }
  }

  /** The row of a completed route, read off its arena. */
  lemma DoneRow(p: Problem, c: RouteSearch, t: nat, round: int)
    requires ValidProblem(p) && Done(p, c, t, round)
    ensures Halts(p) && Shaped(p, c) && ArenaShaped(c.arena) && round == RoundsOf(p)
    ensures var row := RowOf(FinalOf(p)); row.counters == Counters(c.generated, c.expanded, c.pruned)
    ensures var row := RowOf(FinalOf(p));
      match c.best
      case None => row.status == InfeasibleStatus && row.reason == NoPattern && row.metrics == Metrics(Infinite, 0.0, 0.0, 0.0)
                   && row.path == []
      case Some(b) =>
        && row.status == FeasibleStatus && row.reason == NoReason
        && row.metrics == Metrics(Finite(b.distance), b.energy, b.charged, b.chargeTime)
        && 0 <= b.parent < |c.arena| && row.path == PathOf(c.arena, b.parent) + [b.node]
  {
    hide After, LivePops, Flagged, BucketsMatch, QueueMatches, StepsDistinct, QueueFresh, PathOf;
    FinishedIsFinal(p, t);
  }

  lemma RowsStep(inst: Instance, eps: real, orders: seq<seq<nat>>, run: Run, out: BatchOutput, out': BatchOutput, paths: seq<seq<nat>>,
                 r: nat, path: seq<nat>)
    requires BatchReady(inst, eps, orders) && r < |orders| && RowsWritten(inst, eps, orders, run, out, paths, r)
    requires Columns(out', |orders|)
    requires forall j | 0 <= j < |orders| && j != r ::
      out'.statuses[j] == out.statuses[j] && out'.reasons[j] == out.reasons[j] && out'.metrics[j] == out.metrics[j]
      && out'.labelCounters[j] == out.labelCounters[j]
    requires if !run.completed[r] then out'.statuses[r] == out.statuses[r] && out'.reasons[r] == out.reasons[r]
                                       && out'.metrics[r] == out.metrics[r] && path == []
                                       && out'.labelCounters[r] == Counters(run.states[r].generated, run.states[r].expanded, run.states[r].pruned)
             else Halts(ProblemOf(inst, eps, orders, r)) && HoldsRow(out', r, RowOf(FinalOf(ProblemOf(inst, eps, orders, r))))
                  && path == RowOf(FinalOf(ProblemOf(inst, eps, orders, r))).path
    ensures RowsWritten(inst, eps, orders, run, out', paths + [path], r + 1)
  {
    hide FinalOf, RowOf, ValidProblem, Runnable;
  }

  lemma EndsStep(offsets: seq<nat>, paths: seq<seq<nat>>, n: nat, path: seq<nat>)
    requires EndsWritten(offsets, paths, n) && |paths| < n
    ensures Flat(paths + [path]) == Flat(paths) + path
    ensures var r := |paths|; var written := if path == [] then offsets else offsets[r + 1 := |Flat(paths) + path|];
      EndsWritten(written, paths + [path], n)
  {
    var next, r := paths + [path], |paths|;
    assert next[..|next| - 1] == paths && next[..r + 1] == next;
    assert forall j | 0 <= j <= r :: next[..j] == paths[..j];
  }

  /** The pass that writes the rows, the paths and their ends. */
  method WriteRows(inst: Instance, eps: real, orders: seq<seq<nat>>, run: Run, round: nat, batchSize: nat, ghost turn: seq<nat>)
    returns (out: BatchOutput, ghost paths: seq<seq<nat>>)
    requires BatchReady(inst, eps, orders) && Sized(orders, run, turn)
    requires CompletedDone(inst, eps, orders, run, turn, round) && OrderRecorded(run.completionOrder, run.completionRounds)
    ensures RowsWritten(inst, eps, orders, run, out, paths, |orders|) && EndsWritten(out.pathOffsets, paths, |orders|)
    ensures out.pathIndices == Flat(paths) && |paths| == |orders|
  {
    hide FinalOf, RowOf, RoundsOf, Mirrors, After, LivePops, PathOf, Flat, ValidProblem, OrderRecorded;
    out := NothingDone(|orders|, run.checks, batchSize);
    paths := [];
    FlatEmpty([]);
    for r := 0 to |orders|
      invariant RowsWritten(inst, eps, orders, run, out, paths, r) && EndsWritten(out.pathOffsets, paths, |orders|)
      invariant out.pathIndices == Flat(paths)
    {
      var c := run.states[r];
      var before := out;
      out := out.(labelCounters := out.labelCounters[r := Counters(c.generated, c.expanded, c.pruned)]);
      ghost var path: seq<nat> := [];
      if run.completed[r] {
        DoneRow(ProblemOf(inst, eps, orders, r), c, turn[r], run.completionRounds[r]);
        if c.best.None? {
          out := out.(statuses := out.statuses[r := InfeasibleStatus], reasons := out.reasons[r := NoPattern],
                      metrics := out.metrics[r := Metrics(Infinite, 0.0, 0.0, 0.0)]);
        } else {
          var b := c.best.value;
          out := out.(statuses := out.statuses[r := FeasibleStatus], reasons := out.reasons[r := NoReason],
                      metrics := out.metrics[r := Metrics(Finite(b.distance), b.energy, b.charged, b.chargeTime)]);
          var walked := ReconstructPath(c.arena, b.node, b.parent);
          path := walked;
          out := out.(pathIndices := out.pathIndices + walked);
          out := out.(pathOffsets := out.pathOffsets[r + 1 := |out.pathIndices|]);
        }
      }
      RowsStep(inst, eps, orders, run, before, out, paths, r, path);
      EndsStep(before.pathOffsets, paths, |orders|, path);
      paths := paths + [path];
    }
  }

  // ---- the whole run -------------------------------------------------------------------------------------

  /** Every route's search halts. */
  ghost predicate AllHalt(inst: Instance, eps: real, orders: seq<seq<nat>>)
    requires BatchReady(inst, eps, orders)
  {
    forall r | 0 <= r < |orders| :: Halts(ProblemOf(inst, eps, orders, r))
  }

  /** Either every search halts, or the deadline passes at some read: one of the two ends the batch. */
  ghost predicate WillEnd(inst: Instance, eps: real, orders: seq<seq<nat>>, expired: nat -> bool)
    requires BatchReady(inst, eps, orders)
  {
    AllHalt(inst, eps, orders) || exists i: nat :: expired(i)
  }

  /** Separated stations are enough, under any deadline and at any tolerance. */
  lemma SeparatedEnds(inst: Instance, eps: real, orders: seq<seq<nat>>, expired: nat -> bool)
    requires BatchReady(inst, eps, orders) && Separated(inst)
    ensures WillEnd(inst, eps, orders, expired)
  {
    hide Separated, Halts;
    forall r | 0 <= r < |orders| ensures Halts(ProblemOf(inst, eps, orders, r)) { Terminates(ProblemOf(inst, eps, orders, r)); }
  }

  /** More rounds than this no route needs. */
  lemma {:induction false} RoundsAtMost(inst: Instance, eps: real, orders: seq<seq<nat>>, n: nat) returns (bound: nat)
    requires BatchReady(inst, eps, orders) && AllHalt(inst, eps, orders) && n <= |orders|
    ensures forall r | 0 <= r < n :: RoundsOf(ProblemOf(inst, eps, orders, r)) <= bound
  {
    hide RoundsOf, Halts;
    if n == 0 {
      bound := 0;
    } else {
      bound := RoundsAtMost(inst, eps, orders, n - 1);
      assert Halts(ProblemOf(inst, eps, orders, n - 1));
      var own := RoundsOf(ProblemOf(inst, eps, orders, n - 1));
      if own > bound { bound := own; }
    }
  }

  lemma RunningRound(inst: Instance, eps: real, orders: seq<seq<nat>>, run: Run, turn: seq<nat>, round: nat, r: nat, bound: nat)
    requires BatchReady(inst, eps, orders) && Sized(orders, run, turn) && AtRound(inst, eps, orders, run, turn, round)
    requires r < |orders| && !run.completed[r] && AllHalt(inst, eps, orders)
    requires forall o | 0 <= o < |orders| :: RoundsOf(ProblemOf(inst, eps, orders, o)) <= bound
    ensures round <= bound
  {
    hide Mirrors, After, LivePops, RoundsOf, Halts;
    assert Halts(ProblemOf(inst, eps, orders, r));
    RoundsBounded(ProblemOf(inst, eps, orders, r), turn[r]);
  }

  lemma RunStarts(inst: Instance, eps: real, orders: seq<seq<nat>>, checks: nat)
    requires BatchReady(inst, eps, orders)
    ensures var n := |orders|;
      var states := seq(n, r requires 0 <= r < n => StartRoute(ProblemOf(inst, eps, orders, r)));
      var run := Run(states, seq(n, r => false), [], seq(n, r => -1), checks, 0, 0);
      Sized(orders, run, seq(n, r => 0)) && AtRound(inst, eps, orders, run, seq(n, r => 0), 0)
  {
    hide Mirrors, StartRoute, Start;
    forall r | 0 <= r < |orders| ensures
      var p := ProblemOf(inst, eps, orders, r); Mirrors(p, StartRoute(p), After(p, 0)) && LivePops(p, 0) == 0
    {
      StartMirrors(ProblemOf(inst, eps, orders, r));
    }
  }

  lemma Startable(inst: Instance, eps: real, orders: seq<seq<nat>>)
    requires BatchReady(inst, eps, orders)
    ensures forall r | 0 <= r < |orders| :: ProblemOf(inst, eps, orders, r).inst.depot < |ProblemOf(inst, eps, orders, r).inst.nodes|
  {
    forall r | 0 <= r < |orders| ensures ProblemOf(inst, eps, orders, r).inst.depot < |ProblemOf(inst, eps, orders, r).inst.nodes| {
      assert Runnable(ProblemOf(inst, eps, orders, r));
    }
  }

  lemma AtRoundDone(inst: Instance, eps: real, orders: seq<seq<nat>>, run: Run, turn: seq<nat>, round: nat)
    requires BatchReady(inst, eps, orders) && Sized(orders, run, turn) && AtRound(inst, eps, orders, run, turn, round)
    ensures CompletedDone(inst, eps, orders, run, turn, round) && OrderRecorded(run.completionOrder, run.completionRounds)
  {
  }

  /** Reading the deadline changes nothing but the number of reads. */
  lemma ReadAgain(inst: Instance, eps: real, orders: seq<seq<nat>>, run: Run, turn: seq<nat>, round: nat)
    requires BatchReady(inst, eps, orders) && Sized(orders, run, turn) && CompletedDone(inst, eps, orders, run, turn, round)
    ensures CompletedDone(inst, eps, orders, run.(checks := run.checks + 1), turn, round)
  {
    hide Done;
  }

  /** The output assembled from the final run. */
  lemma Assembled(inst: Instance, eps: real, orders: seq<seq<nat>>, run: Run, turn: seq<nat>, round: nat, rows: BatchOutput, out: BatchOutput,
                  paths: seq<seq<nat>>)
    requires BatchReady(inst, eps, orders) && Sized(orders, run, turn)
    requires CompletedDone(inst, eps, orders, run, turn, round) && OrderRecorded(run.completionOrder, run.completionRounds)
    requires RowsWritten(inst, eps, orders, run, rows, paths, |orders|) && out.pathIndices == Flat(paths)
    requires out.statuses == rows.statuses && out.reasons == rows.reasons && out.metrics == rows.metrics
    requires out.labelCounters == rows.labelCounters
    requires OffsetsMark(out.pathOffsets, paths)
    requires out.completionRounds == run.completionRounds && out.completionOrder == run.completionOrder
    ensures Reports(inst, eps, orders, out, paths)
    ensures forall r | 0 <= r < |orders| :: out.statuses[r].InterruptedStatus? <==> !run.completed[r]
    ensures |out.labelCounters| == |orders|
    ensures forall r | 0 <= r < |orders| && !run.completed[r] :: out.labelCounters[r] == CountersOf(run)[r]
  {
    hide Mirrors, After, LivePops, PathOf, Flat, OffsetsMark, OrderRecorded, FinalOf, RoundsOf;
    forall r | 0 <= r < |orders| && run.completed[r]
      ensures out.completionRounds[r] == RoundsOf(ProblemOf(inst, eps, orders, r))
    {
      DoneRow(ProblemOf(inst, eps, orders, r), run.states[r], turn[r], run.completionRounds[r]);
    }
  }

  lemma CountedUp(out: BatchOutput, n: nat, batchSize: nat)
    requires |out.counters| == 10 && |out.completionOrder| <= n
    requires out.counters[0] == out.counters[1] == n && out.counters[2] == |out.completionOrder|
    requires out.counters[3] == n - |out.completionOrder| && out.counters[4] == out.counters[8] == (if n == 0 then 0 else 1)
    requires out.counters[9] == batchSize
    ensures Counted(out, n, batchSize)
  {
  }

  /** What the run leaves behind. */
  method WriteOutput(inst: Instance, eps: real, orders: seq<seq<nat>>, run: Run, round: nat, batchSize: nat, ghost turn: seq<nat>)
    returns (out: BatchOutput, ghost paths: seq<seq<nat>>)
    requires BatchReady(inst, eps, orders) && Sized(orders, run, turn)
    requires CompletedDone(inst, eps, orders, run, turn, round) && OrderRecorded(run.completionOrder, run.completionRounds)
    ensures Reports(inst, eps, orders, out, paths) && Counted(out, |orders|, batchSize)
    ensures out.physicalOrder == [] && out.tasks == []
    ensures forall r | 0 <= r < |orders| :: out.statuses[r].InterruptedStatus? <==> !run.completed[r]
    ensures |out.labelCounters| == |orders|
    ensures forall r | 0 <= r < |orders| && !run.completed[r] :: out.labelCounters[r] == CountersOf(run)[r]
    ensures |out.statuses| == |orders| && |out.counters| == 10 && out.counters[5] == run.chunks && out.counters[6] == run.requests && out.counters[7] == run.checks
  {
    hide Mirrors, LivePops, After, OrderRecorded, CompletedDone, StartRoute, FinalOf, RoundsOf, RowOf, RowsWritten, OffsetsMark,
         Flat, Counted, ValidProblem, Runnable;
    var n := |orders|;
    var rows;
    rows, paths := WriteRows(inst, eps, orders, run, round, batchSize, turn);
    var offsets := CarryOffsets(rows.pathOffsets, paths);
    CompletedBound(run.completionOrder, run.completionRounds);
    var completedCount := |run.completionOrder|;
    var calls := if n == 0 then 0 else 1;
    out := BatchOutput(offsets, rows.pathIndices, rows.statuses, rows.reasons, rows.metrics, rows.labelCounters,
                       [n, n, completedCount, n - completedCount, calls, run.chunks, run.requests, run.checks, calls, batchSize],
                       run.completionOrder, run.completionRounds, [], []);
    Assembled(inst, eps, orders, run, turn, round, rows, out, paths);
    CountedUp(out, n, batchSize);
  }

  /** What bounds the rounds: the halting searches, or the first read at which the deadline has passed. */
  ghost predicate Bounded(inst: Instance, eps: real, orders: seq<seq<nat>>, expired: nat -> bool, halting: bool, bound: nat)
    requires BatchReady(inst, eps, orders)
  {
    if halting then AllHalt(inst, eps, orders) && forall r | 0 <= r < |orders| :: RoundsOf(ProblemOf(inst, eps, orders, r)) <= bound
    else expired(bound)
  }

  lemma FindBound(inst: Instance, eps: real, orders: seq<seq<nat>>, expired: nat -> bool) returns (halting: bool, bound: nat)
    requires BatchReady(inst, eps, orders) && WillEnd(inst, eps, orders, expired)
    ensures Bounded(inst, eps, orders, expired, halting, bound)
  {
    hide RoundsOf, Halts;
    if AllHalt(inst, eps, orders) {
      halting := true;
      bound := RoundsAtMost(inst, eps, orders, |orders|);
    } else {
      halting := false;
      bound :| expired(bound);
    }
  }

  /** How far a running batch can be: in rounds, or in reads of the deadline. */
  ghost predicate Within(halting: bool, bound: nat, round: nat, checks: nat) {
    if halting then round <= bound else checks <= bound
  }

  lemma StillWithin(inst: Instance, eps: real, orders: seq<seq<nat>>, expired: nat -> bool, run: Run, turn: seq<nat>, round: nat,
                    r: nat, halting: bool, bound: nat)
    requires BatchReady(inst, eps, orders) && Sized(orders, run, turn) && AtRound(inst, eps, orders, run, turn, round)
    requires r < |orders| && !run.completed[r] && Monotone(expired) && run.checks > 0 && !expired(run.checks - 1)
    requires Bounded(inst, eps, orders, expired, halting, bound)
    ensures Within(halting, bound, round, run.checks)
  {
    hide RoundsOf, Halts, AtRound;
    if halting {
      RunningRound(inst, eps, orders, run, turn, round, r, bound);
    } else {
      assert run.checks - 1 < bound;
    }
  }

  /** The batch.  Under every deadline each route is interrupted or gets the row, path and round of its own search;
      if the deadline never passes, no route is interrupted. */
  method RunExactChargingBatch(inst: Instance, eps: real, orders: seq<seq<nat>>, batchSize: nat, expired: nat -> bool)
    returns (out: BatchOutput, ghost paths: seq<seq<nat>>)
    requires BatchReady(inst, eps, orders) && batchSize > 0 && Monotone(expired) && WillEnd(inst, eps, orders, expired)
    ensures Reports(inst, eps, orders, out, paths) && Counted(out, |orders|, batchSize)
    ensures out.physicalOrder == [] && out.tasks == []
    ensures Timely(inst, eps, orders, batchSize, expired, out)
    ensures (forall i: nat :: !expired(i)) ==> forall r | 0 <= r < |orders| :: !out.statuses[r].InterruptedStatus?
  {
    hide Mirrors, Underway, LivePops, After, OrderRecorded, CompletedDone, InRound, AtRound, StartRoute, Bounded,
         FinalOf, RoundsOf, RowOf, RowsWritten, EndsWritten, OffsetsMark, Flat, Reports, Counted, ValidProblem, Runnable, WillEnd,
         Concluded, Worked, Settled, Spent, PassEnd, CompletedBefore, Requested, Timely, Midway;
    var n := |orders|;
    var checks := 1;
    if expired(0) {
      EarlyTimely(inst, eps, orders, batchSize, expired, 0);
      NothingReported(inst, eps, orders, checks, batchSize);
      return NothingDone(n, checks, batchSize), seq(n, i => []);
    }
    for r := 0 to n
      invariant checks == r + 1 && Unexpired(expired, checks)
    {
      checks := checks + 1;
      if expired(checks - 1) {
        EarlyTimely(inst, eps, orders, batchSize, expired, checks - 1);
        NothingReported(inst, eps, orders, checks, batchSize);
        return NothingDone(n, checks, batchSize), seq(n, i => []);
      }
    }
    RunStarts(inst, eps, orders, checks + 1);
    Startable(inst, eps, orders);
    var states := seq(n, r requires 0 <= r < n => StartRoute(ProblemOf(inst, eps, orders, r)));
    var run := Run(states, seq(n, r => false), [], seq(n, r => -1), checks + 1, 0, 0);
    ghost var turn := seq(n, r => 0);
    ghost var halting, bound := FindBound(inst, eps, orders, expired);
    var hit := expired(checks);
    var round := 0;
    AtRoundDone(inst, eps, orders, run, turn, round);
    FirstStart(inst, eps, orders, batchSize, run);
    if !hit {
      FirstWithin(inst, eps, orders, expired, run.checks, halting, bound);
    } else {
      StartCounters(inst, eps, orders, run);
      EarlyConcluded(inst, eps, orders, batchSize, expired, run.completed, CountersOf(run), checks);
      FirstConcluded(inst, eps, orders, batchSize, expired, run);
    }
    while !hit
      invariant Sized(orders, run, turn)
      invariant CompletedDone(inst, eps, orders, run, turn, round) && OrderRecorded(run.completionOrder, run.completionRounds)
      invariant !hit ==> AtRound(inst, eps, orders, run, turn, round) && Within(halting, bound, round, run.checks)
      invariant hit ==> Concluded(inst, eps, orders, batchSize, expired, run)
      invariant !hit ==> run.checks == RoundStart(inst, eps, orders, batchSize, round + 1) && Unexpired(expired, run.checks)
      invariant !hit ==> Worked(inst, eps, orders, batchSize, run, round)
      decreases !hit, if halting then bound + 1 - round else bound + 1 - run.checks
    {
      round := round + 1;
      var reqs, progressed, passed;
      ghost var before := run;
      run, reqs, progressed, passed, turn := PopPhase(inst, eps, orders, run, round, batchSize, expired, turn);
      WorkedStill(inst, eps, orders, batchSize, before, run, round - 1);
      hit := expired(run.checks);
      if passed { PassConcluded(inst, eps, orders, batchSize, expired, run, round); }
      ReadAgain(inst, eps, orders, run, turn, round);
      if !passed { InRoundCounters(inst, eps, orders, run, run.(checks := run.checks + 1), turn, round, reqs); }
      run := run.(checks := run.checks + 1);
      WorkedStill(inst, eps, orders, batchSize, before, run, round - 1);
      if hit {
        if !passed { RoundMidway(inst, eps, orders, run, turn, round, |orders|, reqs); }
        if !passed { AfterPassConcluded(inst, eps, orders, batchSize, expired, run, round); }
        break;
      }
      if reqs == [] {
        if !progressed {
          AllConcluded(inst, eps, orders, batchSize, expired, run, round);
          break;
        }
        QuietRound(inst, eps, orders, batchSize, run, round);
        RoundEnds(inst, eps, orders, run, turn, round);
      } else {
        run, hit := RequestPhase(inst, eps, orders, run, round, reqs, batchSize, expired, turn);
      }
      if !hit {
        ghost var r :| 0 <= r < |orders| && !run.completed[r];
        StillWithin(inst, eps, orders, expired, run, turn, round, r, halting, bound);
        AtRoundDone(inst, eps, orders, run, turn, round);
      }
    }
    out, paths := WriteOutput(inst, eps, orders, run, round, batchSize, turn);
    OutputTimely(inst, eps, orders, batchSize, expired, run, out);
    NeverInterrupted(inst, eps, orders, batchSize, expired, out);
  }

  /** A route is interrupted if and only if its search does not halt or the read that decides about it is expired; and
      reads, batches and requests are those of such a run. */
  ghost predicate Timely(inst: Instance, eps: real, orders: seq<seq<nat>>, size: nat, expired: nat -> bool, out: BatchOutput)
    requires BatchReady(inst, eps, orders) && size > 0
  {
    && |out.statuses| == |out.labelCounters| == |orders| && |out.counters| == 10
    && (forall r | 0 <= r < |orders| ::
          out.statuses[r].InterruptedStatus?
          <==> !(Halts(ProblemOf(inst, eps, orders, r)) && !expired(FinishRead(inst, eps, orders, size, r))))
    && Spent(inst, eps, orders, size, expired, out.counters[7], out.counters[5], out.counters[6], CompletedIn(out), out.labelCounters)
  }

  function CompletedIn(out: BatchOutput): (s: seq<bool>)
    ensures |s| == |out.statuses| && forall r | 0 <= r < |s| :: s[r] <==> !out.statuses[r].InterruptedStatus?
  {
    seq(|out.statuses|, r requires 0 <= r < |out.statuses| => !out.statuses[r].InterruptedStatus?)
  }

  lemma OutputTimely(inst: Instance, eps: real, orders: seq<seq<nat>>, size: nat, expired: nat -> bool, run: Run, out: BatchOutput)
    requires BatchReady(inst, eps, orders) && size > 0 && Concluded(inst, eps, orders, size, expired, run)
    requires |out.statuses| == |orders| && |run.completed| == |orders| && |out.counters| == 10
    requires forall r | 0 <= r < |orders| :: out.statuses[r].InterruptedStatus? <==> !run.completed[r]
    requires out.counters[7] == run.checks && out.counters[5] == run.chunks && out.counters[6] == run.requests
    requires |out.labelCounters| == |run.states| == |orders|
    requires forall r | 0 <= r < |orders| && !run.completed[r] :: out.labelCounters[r] == CountersOf(run)[r]
    ensures Timely(inst, eps, orders, size, expired, out)
  {
    hide StoppedAt, EndedIn, FinishRead, Halts, MidRoute;
    assert CompletedIn(out) == run.completed;
    if round, e :|
      StoppedAt(inst, eps, orders, size, expired, run.checks, run.chunks, run.requests, round, e)
      && CutOff(inst, eps, orders, run.completed, CountersOf(run), round, e)
    {
      assert CutOff(inst, eps, orders, CompletedIn(out), out.labelCounters, round, e);
    }
  }

  lemma EarlyTimely(inst: Instance, eps: real, orders: seq<seq<nat>>, size: nat, expired: nat -> bool, e: nat)
    requires BatchReady(inst, eps, orders) && size > 0 && Monotone(expired) && Unexpired(expired, e) && expired(e) && e <= |orders|
    ensures Timely(inst, eps, orders, size, expired, NothingDone(|orders|, e + 1, size))
  {
    hide Spent, FinishRead, Halts, Monotone;
    var out := NothingDone(|orders|, e + 1, size);
    EarlyConcluded(inst, eps, orders, size, expired, CompletedIn(out), out.labelCounters, e);
  }

  /** Without expiry every halting route is reported. */
  lemma NeverInterrupted(inst: Instance, eps: real, orders: seq<seq<nat>>, size: nat, expired: nat -> bool, out: BatchOutput)
    requires BatchReady(inst, eps, orders) && size > 0 && Timely(inst, eps, orders, size, expired, out) && WillEnd(inst, eps, orders, expired)
    ensures (forall i: nat :: !expired(i)) ==> forall r | 0 <= r < |orders| :: !out.statuses[r].InterruptedStatus?
  {
    hide Spent, FinishRead, Halts;
  }

  lemma FirstStart(inst: Instance, eps: real, orders: seq<seq<nat>>, size: nat, run: Run)
    requires BatchReady(inst, eps, orders) && size > 0
    ensures RoundStart(inst, eps, orders, size, 1) == |orders| + 2
    ensures run.chunks == 0 && run.requests == 0 ==> Worked(inst, eps, orders, size, run, 0)
  {
  }

  lemma StartCounters(inst: Instance, eps: real, orders: seq<seq<nat>>, run: Run)
    requires BatchReady(inst, eps, orders) && |run.states| == |orders|
    requires forall r | 0 <= r < |orders| :: ProblemOf(inst, eps, orders, r).inst.depot < |ProblemOf(inst, eps, orders, r).inst.nodes|
    requires forall r | 0 <= r < |orders| :: run.states[r] == StartRoute(ProblemOf(inst, eps, orders, r))
    ensures forall r | 0 <= r < |orders| :: CountersOf(run)[r] == Counters(1, 0, 0)
  {
  }

  lemma FirstConcluded(inst: Instance, eps: real, orders: seq<seq<nat>>, size: nat, expired: nat -> bool, run: Run)
    requires BatchReady(inst, eps, orders) && size > 0 && |run.completed| == |run.states| == |orders|
    requires Settled(inst, eps, orders, size, expired, run.completed)
    requires Spent(inst, eps, orders, size, expired, run.checks, run.chunks, run.requests, run.completed, CountersOf(run))
    ensures Concluded(inst, eps, orders, size, expired, run)
  {
    hide Spent, Settled;
  }

  lemma WorkedStill(inst: Instance, eps: real, orders: seq<seq<nat>>, size: nat, run: Run, run': Run, round: nat)
    requires BatchReady(inst, eps, orders) && size > 0 && run'.chunks == run.chunks && run'.requests == run.requests
    ensures Worked(inst, eps, orders, size, run, round) ==> Worked(inst, eps, orders, size, run', round)
  {
  }

  /** A round without requests. */
  lemma QuietRound(inst: Instance, eps: real, orders: seq<seq<nat>>, size: nat, run: Run, round: nat)
    requires BatchReady(inst, eps, orders) && size > 0 && round > 0 && Requested(inst, eps, orders, round, |orders|) == 0
    requires run.checks == PassEnd(inst, eps, orders, size, round) && Worked(inst, eps, orders, size, run, round - 1)
    ensures run.checks == RoundStart(inst, eps, orders, size, round + 1) && Worked(inst, eps, orders, size, run, round)
  {
    hide Requested;
  }

  lemma FirstWithin(inst: Instance, eps: real, orders: seq<seq<nat>>, expired: nat -> bool, checks: nat, halting: bool, bound: nat)
    requires BatchReady(inst, eps, orders) && Monotone(expired) && checks > 0 && !expired(checks - 1)
    requires Bounded(inst, eps, orders, expired, halting, bound)
    ensures Within(halting, bound, 0, checks)
  {
    hide RoundsOf, Halts;
  }
}
