/** When a batch reads its deadline, told by the searches of its routes alone: so one can say which routes an expiring
    deadline interrupts. */
module BatchReads {
  import opened EvrptwModel
  import opened Counting
  import opened ChargingSearch
  import opened BestSoFar
  import opened TimedTermination
  import opened BatchLabels
  import opened BatchRefinement
  import opened BatchRounds

  function ProblemOf(inst: Instance, eps: real, orders: seq<seq<nat>>, r: nat): Problem
    requires r < |orders|
  {
    Problem(inst, orders[r], eps)
  }

  /** Every order passed validation. */
  ghost predicate BatchReady(inst: Instance, eps: real, orders: seq<seq<nat>>) {
    forall r | 0 <= r < |orders| :: ValidProblem(ProblemOf(inst, eps, orders, r))
  }

  // ---- what a route does in a round --------------------------------------------------------------------------

  /** The turn in which a route pops its live label of the round. */
  ghost predicate TurnOf(p: Problem, round: nat, n: nat)
    requires Runnable(p)
  {
    PopsLive(After(p, n)) && LivePops(p, n) + 1 == round
  }

  /** How many requests a route makes in a round: one per move of the label it expands, if it does. */
  ghost function MovesIn(p: Problem, round: nat): nat
    requires ValidProblem(p)
  {
    if exists n :: TurnOf(p, round, n) then
      var n :| TurnOf(p, round, n);
      var l := Expanded(p, After(p, n));
      if l.Some? then |MovesFrom(p, l.value)| else 0
    else 0
  }

  /** The route is found finished in the round. */
  ghost predicate FoundIn(p: Problem, round: nat)
    requires ValidProblem(p)
  {
    Halts(p) && RoundsOf(p) == round
  }

  lemma {:induction false} TurnsApart(p: Problem, n: nat, m: nat)
    requires ValidProblem(p) && PopsLive(After(p, n)) && n < m
    ensures LivePops(p, n) < LivePops(p, m)
  {
    hide After;
    LivePopsGrow(p, n + 1, m);
  }

  lemma OneTurn(p: Problem, round: nat, n: nat)
    requires ValidProblem(p) && TurnOf(p, round, n)
    ensures MovesIn(p, round) == var l := Expanded(p, After(p, n)); if l.Some? then |MovesFrom(p, l.value)| else 0
  {
    hide After, LivePops, PopsLive;
    forall m: nat | TurnOf(p, round, m) ensures m == n {
      if m < n { TurnsApart(p, m, n); }
      if n < m { TurnsApart(p, n, m); }
    }
  }

  /** A finished route makes no requests, and a route with a live label is not finished. */
  lemma FinishedIsQuiet(p: Problem, round: nat)
    requires ValidProblem(p) && Halts(p) && RoundsOf(p) <= round
    ensures MovesIn(p, round) == 0
  {
    hide After, LivePops, RoundsOf, Halts;
    if n: nat :| TurnOf(p, round, n) {
      assert LivePops(p, n + 1) == LivePops(p, n) + 1 by { LivePopStep(p, n); }
      RoundsBounded(p, n + 1);
    }
  }

  lemma LivePopStep(p: Problem, n: nat)
    requires Runnable(p) && PopsLive(After(p, n))
    ensures LivePops(p, n + 1) == LivePops(p, n) + 1
  {
  }

  // ---- reads of the deadline ---------------------------------------------------------------------------------

  /** Requests of the routes below `i` in a round. */
  ghost function Requested(inst: Instance, eps: real, orders: seq<seq<nat>>, round: nat, i: nat): nat
    requires BatchReady(inst, eps, orders) && i <= |orders|
  {
    if i == 0 then 0 else Requested(inst, eps, orders, round, i - 1) + MovesIn(ProblemOf(inst, eps, orders, i - 1), round)
  }

  /** How many routes below `i` are found finished in a round. */
  ghost function FoundBelow(inst: Instance, eps: real, orders: seq<seq<nat>>, round: nat, i: nat): (n: nat)
    requires BatchReady(inst, eps, orders) && i <= |orders|
    ensures n <= i
  {
    if i == 0 then 0
    else FoundBelow(inst, eps, orders, round, i - 1) + if FoundIn(ProblemOf(inst, eps, orders, i - 1), round) then 1 else 0
  }

  /** Batches of at most `size` requests. */
  function BatchesOf(requests: nat, size: nat): nat
    requires size > 0
  {
    if requests == 0 then 0 else if requests <= size then 1 else 1 + BatchesOf(requests - size, size)
  }

  /** Reads before the passes over the routes of a round: two and one per route before the first, and in each earlier round
      one per route, one more for each route found finished, one after the pass and one per batch of requests. */
  ghost function RoundStart(inst: Instance, eps: real, orders: seq<seq<nat>>, size: nat, round: nat): nat
    requires BatchReady(inst, eps, orders) && size > 0
    decreases round, 0
  {
    if round <= 1 then |orders| + 2
    else PassEnd(inst, eps, orders, size, round - 1) + BatchesOf(Requested(inst, eps, orders, round - 1, |orders|), size)
  }

  /** Reads up to the one after the pass. */
  ghost function PassEnd(inst: Instance, eps: real, orders: seq<seq<nat>>, size: nat, round: nat): nat
    requires BatchReady(inst, eps, orders) && size > 0
    decreases round, 1
  {
    RoundStart(inst, eps, orders, size, round) + |orders| + FoundBelow(inst, eps, orders, round, |orders|) + 1
  }

  /** The read that decides whether a route still is recorded: the second one when it is found finished. */
  ghost function FinishRead(inst: Instance, eps: real, orders: seq<seq<nat>>, size: nat, r: nat): nat
    requires BatchReady(inst, eps, orders) && size > 0 && r < |orders| && Halts(ProblemOf(inst, eps, orders, r))
  {
    var round := RoundsOf(ProblemOf(inst, eps, orders, r));
    RoundStart(inst, eps, orders, size, round) + r + FoundBelow(inst, eps, orders, round, r) + 1
  }

  /** Batches and requests of the first rounds. */
  ghost function BatchesThrough(inst: Instance, eps: real, orders: seq<seq<nat>>, size: nat, round: nat): nat
    requires BatchReady(inst, eps, orders) && size > 0
  {
    if round == 0 then 0
    else BatchesThrough(inst, eps, orders, size, round - 1) + BatchesOf(Requested(inst, eps, orders, round, |orders|), size)
  }

  ghost function RequestsThrough(inst: Instance, eps: real, orders: seq<seq<nat>>, round: nat): nat
    requires BatchReady(inst, eps, orders)
  {
    if round == 0 then 0
    else RequestsThrough(inst, eps, orders, round - 1) + Requested(inst, eps, orders, round, |orders|)
  }

  lemma {:induction false} FoundGrows(inst: Instance, eps: real, orders: seq<seq<nat>>, round: nat, i: nat, j: nat)
    requires BatchReady(inst, eps, orders) && i <= j <= |orders|
    ensures FoundBelow(inst, eps, orders, round, i) <= FoundBelow(inst, eps, orders, round, j)
    ensures i < j && FoundIn(ProblemOf(inst, eps, orders, i), round) ==>
      FoundBelow(inst, eps, orders, round, i) < FoundBelow(inst, eps, orders, round, j)
    decreases j
  {
    hide FoundIn;
    if i < j { FoundGrows(inst, eps, orders, round, i, j - 1); }
  }

  lemma {:induction false} StartsGrow(inst: Instance, eps: real, orders: seq<seq<nat>>, size: nat, a: nat, b: nat)
    requires BatchReady(inst, eps, orders) && size > 0 && 0 < a <= b
    ensures RoundStart(inst, eps, orders, size, a) <= RoundStart(inst, eps, orders, size, b)
    ensures a < b ==> PassEnd(inst, eps, orders, size, a) <= RoundStart(inst, eps, orders, size, b)
    decreases b
  {
    hide FoundBelow, Requested, BatchesOf;
    if a < b { StartsGrow(inst, eps, orders, size, a, b - 1); }
  }

  /** The deciding read of a route, seen from a position `i` in the pass of a round. */
  lemma ReadPlaced(inst: Instance, eps: real, orders: seq<seq<nat>>, size: nat, round: nat, i: nat, r: nat)
    requires BatchReady(inst, eps, orders) && size > 0 && round > 0 && i <= |orders| && r < |orders|
    requires Halts(ProblemOf(inst, eps, orders, r))
    ensures var rounds, read := RoundsOf(ProblemOf(inst, eps, orders, r)), FinishRead(inst, eps, orders, size, r);
      && (rounds < round || (rounds == round && r < i) ==>
            read < RoundStart(inst, eps, orders, size, round) + i + FoundBelow(inst, eps, orders, round, i))
      && (rounds > round ==> read > RoundStart(inst, eps, orders, size, round + 1))
      && (rounds == round && i <= r ==> read > RoundStart(inst, eps, orders, size, round) + i + FoundBelow(inst, eps, orders, round, i))
      && (rounds == round && i == r ==> read == RoundStart(inst, eps, orders, size, round) + i + FoundBelow(inst, eps, orders, round, i) + 1)
  {
    hide FoundBelow, Requested, BatchesOf, RoundsOf, RoundStart, Halts;
    var rounds := RoundsOf(ProblemOf(inst, eps, orders, r));
    assert FoundIn(ProblemOf(inst, eps, orders, r), rounds);
    FoundGrows(inst, eps, orders, rounds, r, |orders|);
    if rounds < round {
      StartsGrow(inst, eps, orders, size, rounds, round);
    } else if rounds == round {
      if r < i { FoundGrows(inst, eps, orders, round, r, i); } else { FoundGrows(inst, eps, orders, round, i, r); }
    } else {
      StartsGrow(inst, eps, orders, size, round + 1, rounds);
    }
  }

  // ---- when the deadline passes ------------------------------------------------------------------------------

  /** Once passed, a deadline stays passed. */
  ghost predicate Monotone(expired: nat -> bool) {
    forall a: nat, b: nat | a <= b :: expired(a) ==> expired(b)
  }

  ghost predicate Unexpired(expired: nat -> bool, n: nat) { forall i: nat | i < n :: !expired(i) }

  /** The routes found finished before a position in the pass of a round are completed, and no others. */
  ghost predicate CompletedBefore(inst: Instance, eps: real, orders: seq<seq<nat>>, completed: seq<bool>, round: nat, i: nat)
    requires BatchReady(inst, eps, orders) && |completed| == |orders|
  {
    forall r | 0 <= r < |orders| ::
      var p := ProblemOf(inst, eps, orders, r);
      completed[r] <==> Halts(p) && (RoundsOf(p) < round || (RoundsOf(p) == round && r < i))
  }

  /** A route is completed exactly if its search halts and the read that decides about it is not expired. */
  ghost predicate Settled(inst: Instance, eps: real, orders: seq<seq<nat>>, size: nat, expired: nat -> bool, completed: seq<bool>)
    requires BatchReady(inst, eps, orders) && size > 0 && |completed| == |orders|
  {
    forall r | 0 <= r < |orders| ::
      completed[r] <==> Halts(ProblemOf(inst, eps, orders, r)) && !expired(FinishRead(inst, eps, orders, size, r))
  }

  /** The deadline is found passed at read `e` of a round, at position `i` of the pass or after it. */
  lemma SettledAt(inst: Instance, eps: real, orders: seq<seq<nat>>, size: nat, expired: nat -> bool, completed: seq<bool>,
                  round: nat, i: nat, e: nat)
    requires BatchReady(inst, eps, orders) && size > 0 && |completed| == |orders| && round > 0 && i <= |orders| && Monotone(expired)
    requires CompletedBefore(inst, eps, orders, completed, round, i) && Unexpired(expired, e) && expired(e)
    requires RoundStart(inst, eps, orders, size, round) + i + FoundBelow(inst, eps, orders, round, i) <= e
    requires if i < |orders| then e <= RoundStart(inst, eps, orders, size, round) + i + FoundBelow(inst, eps, orders, round, i) + 1
             else e < RoundStart(inst, eps, orders, size, round + 1)
    ensures Settled(inst, eps, orders, size, expired, completed)
  {
    hide FoundBelow, Requested, BatchesOf, RoundsOf, RoundStart, Halts, FinishRead;
    forall r | 0 <= r < |orders|
      ensures completed[r] <==> Halts(ProblemOf(inst, eps, orders, r)) && !expired(FinishRead(inst, eps, orders, size, r))
    {
      if Halts(ProblemOf(inst, eps, orders, r)) {
        ReadPlaced(inst, eps, orders, size, round, i, r);
        FoundGrows(inst, eps, orders, round, i, |orders|);
        StartsGrow(inst, eps, orders, size, round, round + 1);
      }
    }
  }

  /** All routes are completed, and no read so far was expired. */
  lemma SettledAll(inst: Instance, eps: real, orders: seq<seq<nat>>, size: nat, expired: nat -> bool, completed: seq<bool>, round: nat)
    requires BatchReady(inst, eps, orders) && size > 0 && |completed| == |orders| && round > 0
    requires CompletedBefore(inst, eps, orders, completed, round, |orders|) && forall r | 0 <= r < |orders| :: completed[r]
    requires Unexpired(expired, PassEnd(inst, eps, orders, size, round))
    ensures Settled(inst, eps, orders, size, expired, completed)
  {
    hide FoundBelow, Requested, BatchesOf, RoundsOf, RoundStart, Halts, FinishRead;
    forall r | 0 <= r < |orders|
      ensures Halts(ProblemOf(inst, eps, orders, r)) && !expired(FinishRead(inst, eps, orders, size, r))
    {
      ReadPlaced(inst, eps, orders, size, round, |orders|, r);
    }
  }

  /** The deadline is found passed before the first round. */
  lemma SettledEarly(inst: Instance, eps: real, orders: seq<seq<nat>>, size: nat, expired: nat -> bool, completed: seq<bool>, e: nat)
    requires BatchReady(inst, eps, orders) && size > 0 && |completed| == |orders| && Monotone(expired)
    requires expired(e) && e < |orders| + 2 && forall r | 0 <= r < |orders| :: !completed[r]
    ensures Settled(inst, eps, orders, size, expired, completed)
  {
    hide FoundBelow, Requested, BatchesOf, RoundsOf, PassEnd, Halts;
    forall r | 0 <= r < |orders| && Halts(ProblemOf(inst, eps, orders, r)) ensures expired(FinishRead(inst, eps, orders, size, r)) {
      StartsGrow(inst, eps, orders, size, 1, RoundsOf(ProblemOf(inst, eps, orders, r)));
    }
  }

  // ---- what the batch counts ---------------------------------------------------------------------------------

  /** Reads, batches and requests of a batch that found the deadline passed at read `e`, before the first round or in it.
      A deadline found passed in a pass is read once more. */
  ghost predicate StoppedAt(inst: Instance, eps: real, orders: seq<seq<nat>>, size: nat, expired: nat -> bool,
                            checks: nat, batches: nat, requests: nat, round: nat, e: nat)
    requires BatchReady(inst, eps, orders) && size > 0
  {
    && Unexpired(expired, e) && expired(e)
    && if round == 0 then e < |orders| + 2 && checks == e + 1 && batches == requests == 0
       else
         && RoundStart(inst, eps, orders, size, round) <= e < RoundStart(inst, eps, orders, size, round + 1)
         && checks == e + 1 + (if e < PassEnd(inst, eps, orders, size, round) - 1 then 1 else 0)
         && batches == BatchesThrough(inst, eps, orders, size, round - 1)
                       + (if e < PassEnd(inst, eps, orders, size, round) then 0 else e - PassEnd(inst, eps, orders, size, round))
         && RequestsThrough(inst, eps, orders, round - 1) <= requests <= RequestsThrough(inst, eps, orders, round)
  }

  /** Reads, batches and requests of a batch that ended with all routes completed, in a round. */
  ghost predicate EndedIn(inst: Instance, eps: real, orders: seq<seq<nat>>, size: nat, expired: nat -> bool,
                          checks: nat, batches: nat, requests: nat, round: nat)
    requires BatchReady(inst, eps, orders) && size > 0
  {
    && round > 0 && checks == PassEnd(inst, eps, orders, size, round) && Unexpired(expired, checks)
    && batches == BatchesThrough(inst, eps, orders, size, round - 1) && requests == RequestsThrough(inst, eps, orders, round - 1)
    && (forall r | 0 <= r < |orders| :: Halts(ProblemOf(inst, eps, orders, r)) && RoundsOf(ProblemOf(inst, eps, orders, r)) <= round)
  }

  // ---- routes cut off ----------------------------------------------------------------------------------------

  /** The counters of a route cut off in a round are those of its own search at a turn of that round, but for the moves of
      one label at most. */
  ghost predicate MidRoute(p: Problem, generated: nat, expanded: nat, pruned: nat, round: nat)
    requires Runnable(p)
  {
    exists t :: AtTurn(p, generated, expanded, pruned, round, t)
  }

  ghost predicate AtTurn(p: Problem, generated: nat, expanded: nat, pruned: nat, round: nat, t: nat)
    requires Runnable(p)
  {
    && (LivePops(p, t) == round || LivePops(p, t) + 1 == round)
    && expanded == After(p, t).expanded && pruned <= After(p, t).pruned
    && generated <= After(p, t).generated <= generated + |p.inst.nodes|
  }

  lemma {:induction false} RelaxAllPrunes(p: Problem, l: Label, ks: seq<Key>, st: SearchState)
    requires ValidProblem(p) && forall k | k in ks :: k.1 < |p.inst.nodes|
    ensures st.pruned <= RelaxAll(p, l, ks, st).pruned
  {
    hide Extend, Dominates, Metric;
    if ks != [] { RelaxAllPrunes(p, l, ks[1..], Relax(p, l, ks[0], st)); }
  }

  /** A route with requests still open. */
  lemma PendingAtTurn(p: Problem, c: RouteSearch, index: nat, ks: seq<Key>, t: nat, s: SearchState, round: nat)
    requires ValidProblem(p) && Pending(p, c, index, ks, After(p, t), s)
    requires LivePops(p, t) == round || LivePops(p, t) + 1 == round
    ensures MidRoute(p, c.generated, c.expanded, c.pruned, round)
  {
    hide After, LivePops, RelaxAll, PathOf;
    assert forall k | k in ks :: KeyInRange(p, k);
    RelaxAllCounts(p, ViewOf(c.arena, index), ks, s);
    RelaxAllPrunes(p, ViewOf(c.arena, index), ks, s);
    var nodes := seq(|ks|, i requires 0 <= i < |ks| => ks[i].1);
    forall i | 0 <= i < |ks| ensures nodes[i] < |p.inst.nodes| { assert ks[i] in ks; }
    Pigeonhole(nodes, |p.inst.nodes|);
    MirrorCounts(p, c, s);
    assert AtTurn(p, c.generated, c.expanded, c.pruned, round, t);
  }

  lemma MirrorCounts(p: Problem, c: RouteSearch, s: SearchState)
    requires Mirrors(p, c, s)
    ensures c.generated == s.generated && c.expanded == s.expanded && c.pruned == s.pruned
  {
  }

  /** A route between turns. */
  lemma MirrorAtTurn(p: Problem, c: RouteSearch, t: nat, round: nat)
    requires ValidProblem(p) && Mirrors(p, c, After(p, t)) && (LivePops(p, t) == round || LivePops(p, t) + 1 == round)
    ensures MidRoute(p, c.generated, c.expanded, c.pruned, round)
  {
    hide After, LivePops;
    MirrorCounts(p, c, After(p, t));
    assert AtTurn(p, c.generated, c.expanded, c.pruned, round, t);
  }
}
