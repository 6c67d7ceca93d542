/** The search as the program runs it, over local variables, and what its answers mean at any tolerance. */
module ExactCharging {
  import opened Options
  import opened EvrptwModel
  import opened PriorityQueue
  import opened ChargingSearch
  import opened ChargingExactness
  import opened BestSoFar
  import opened TimedTermination
  import opened RouteValidator
  import opened SearchAgreement
  import opened ClampedRoutes
  import opened GridInstances

  datatype Outcome =
    | Rejected(failure: OrderFailure)
    | Infeasible(generated: nat, expanded: nat, pruned: nat)
    | Feasible(route: seq<nat>, distance: real, energy: real, charged: real, chargeTime: real,
               generated: nat, expanded: nat, pruned: nat)
    | InvalidRoute(violations: seq<Violation>)

  /** `st` is how the search for `p` ends. */
  ghost predicate Ends(p: Problem, st: SearchState)
    requires Runnable(p)
  {
    exists n: nat :: After(p, n) == st && st.queue == []
  }

  lemma Halted(p: Problem, st: SearchState)
    requires Runnable(p) && st.queue == []
    ensures Iterate(p, st) == st
  {
  }

  lemma {:induction false} Stays(p: Problem, n: nat, m: nat)
    requires Runnable(p) && After(p, n).queue == [] && n <= m
    ensures After(p, m) == After(p, n)
    decreases m
  {
    hide Iterate, Start;
    if n < m {
      Stays(p, n, m - 1);
      Halted(p, After(p, m - 1));
    }
  }

  /** A search ends in one way. */
  lemma EndsOnce(p: Problem, st: SearchState, st': SearchState)
    requires Runnable(p) && Ends(p, st) && Ends(p, st')
    ensures st == st'
  {
    var n: nat :| After(p, n) == st && st.queue == [];
    var m: nat :| After(p, m) == st' && st'.queue == [];
    if n <= m { Stays(p, n, m); } else { Stays(p, m, n); }
  }

  /** One turn of the inner loop: extend, count, and file the label. */
  method Visit(p: Problem, l: Label, k: Key, st: SearchState) returns (next: SearchState)
    requires Runnable(p) && k.1 < |p.inst.nodes|
    ensures next == Relax(p, l, k, st)
  {
    hide Extend, Dominates;
    var labels, queue, best := st.labels, st.queue, st.best;
    var generated, pruned, serial := st.generated, st.pruned, st.serial;
    var candidate := Extend(p, l, k.1, k.0);
    generated := generated + 1;
    if candidate.None? {
      pruned := pruned + 1;
    } else {
      var c := candidate.value;
      ExtendShape(p, l, k);
      if k.0 == |p.order| && p.inst.nodes[k.1].kind.Depot? {
        if best.None? || BetterTerminal(c, best.value) {
          best := Some(c);
        }
      } else {
        var current := if KeyOf(c) in labels then labels[KeyOf(c)] else [];
        if exists existing | existing in current :: Dominates(p.eps, existing, c) {
          pruned := pruned + 1;
        } else {
          var survivors := Undominated(p.eps, current, c);
          pruned := pruned + (|current| - |survivors|);
          survivors := survivors + [c];
          labels := labels[KeyOf(c) := survivors];
          queue := queue + [Prioritized(c, serial)];
          serial := serial + 1;
        }
      }
    }
    next := SearchState(labels, queue, best, generated, st.expanded, pruned, serial);
  }

  /** The inner loop over the successors of a label. */
  method Expand(p: Problem, l: Label, begun: SearchState) returns (st: SearchState)
    requires Runnable(p) && forall k | k in Successors(p, l) :: k.1 < |p.inst.nodes|
    ensures st == RelaxAll(p, l, Successors(p, l), begun)
  {
    hide Relax, Successors;
    var moves := Successors(p, l);
    st := begun;
    for j := 0 to |moves|
      invariant forall k | k in moves[j..] :: k.1 < |p.inst.nodes|
      invariant RelaxAll(p, l, moves[j..], st) == RelaxAll(p, l, moves, begun)
    {
      assert moves[j..][1..] == moves[j + 1..] && moves[j] in moves[j..];
      assert forall k | k in moves[j + 1..] :: k in moves[j..];
      st := Visit(p, l, moves[j], st);
    }
  }

  /** A running search has not come to the turn at which it halts. */
  lemma Turns(p: Problem, n: nat, last: nat)
    requires Runnable(p) && After(p, last).queue == []
    ensures After(p, n).queue == [] || n < last
    ensures After(p, n + 1) == Iterate(p, After(p, n))
  {
    hide Iterate, Start;
    if last <= n { Stays(p, last, n); }
  }

  /** The search loop, run until the queue is empty. */
  method Search(p: Problem) returns (st: SearchState)
    requires ValidProblem(p) && Halts(p)
    ensures Ends(p, st)
  {
    hide Successors, RelaxAll, Start, Live, Cut, Metric, MinIndex;
    ghost var last: nat :| After(p, last).queue == [];
    st := Start(p);
    ghost var n: nat := 0;
    Turns(p, 0, last);
    while st.queue != []
      invariant st == After(p, n)
      invariant st.queue == [] || n < last
      decreases last - n
    {
      Turns(p, n, last);
      Turns(p, n + 1, last);
      var popped := MinIndex(st.queue);
      var l := st.queue[popped].item;
      var live, cut := Live(st, l), Cut(p, st, l);
      st := st.(queue := Without(st.queue, popped));
      if live && cut {
        st := st.(pruned := st.pruned + 1);
      } else if live {
        st := st.(expanded := st.expanded + 1);
        SuccessorsKnown(p, l);
        st := Expand(p, l, st);
      }
      n := n + 1;
    }
  }

  /** What the call answers for a search that ended in `st`. */
  ghost predicate Answers(p: Problem, st: SearchState, outcome: Outcome)
    requires Runnable(p)
  {
    match st.best
    case None => outcome == Infeasible(st.generated, st.expanded, st.pruned)
    case Some(b) =>
      && Pattern(p, b.path) && Walk(p, b.path) == Some(b)
      && if Accepted(p.inst, p.eps, b.path) then
           outcome == Feasible(b.path, b.distance, b.energy, b.charged, b.chargeTime, st.generated, st.expanded, st.pruned)
           && CustomersOf(p.inst, b.path) == p.order
         else outcome == InvalidRoute(ReportOf(p.inst, p.eps, b.path).violations)
  }

  /** The whole call, at any tolerance.  It rejects bad orders; otherwise it answers by the final state of the search, and
      fails exactly if the validator does not bear the route found. */
  method SolveExactCharging(inst: Instance, eps: real, order: seq<nat>) returns (outcome: Outcome)
    requires WellFormed(inst)
    requires ValidProblem(Problem(inst, order, eps)) ==> Halts(Problem(inst, order, eps))
    ensures outcome.Rejected? <==> ValidateOrder(inst, eps, order) != NoFailure
    ensures outcome.Rejected? ==> outcome.failure == ValidateOrder(inst, eps, order)
    ensures !outcome.Rejected? ==> ValidProblem(Problem(inst, order, eps))
    ensures !outcome.Rejected? ==>
      exists st :: Ends(Problem(inst, order, eps), st) && Answers(Problem(inst, order, eps), st, outcome)
  {
    var failure := ValidateOrder(inst, eps, order);
    if failure != NoFailure {
      return Rejected(failure);
    }
    var p := Problem(inst, order, eps);
    AdmittedIsValid(p);
    hide Walk, Metric, Halts;
    var st := Search(p);
    ghost var n: nat :| After(p, n) == st && st.queue == [];
    AlwaysSound(p, n);
    if st.best.None? {
      outcome := Infeasible(st.generated, st.expanded, st.pruned);
    } else {
      var best := st.best.value;
      PatternShape(p, best.path);
      var report := ValidateRoute(inst, eps, best.path);
      if report.violations != [] || CustomersOf(inst, best.path) != order {
        outcome := InvalidRoute(report.violations);
      } else {
        outcome := Feasible(best.path, best.distance, best.energy, best.charged, best.chargeTime,
                            st.generated, st.expanded, st.pruned);
      }
    }
    assert Answers(p, st, outcome);
  }

  /** The call fails on a route exactly if some node of the route does not bear its overdrafts. */
  lemma FailsExactlyWhenNotBorne(p: Problem, st: SearchState, outcome: Outcome)
    requires Admitted(p) && ValidProblem(p) && Answers(p, st, outcome)
    ensures outcome.InvalidRoute? <==>
      st.best.Some? && Walked(p, st.best.value.path) && exists n :: 1 < n <= |st.best.value.path| && !Bears(p, st.best.value.path, n)
  {
    hide Walk, Bears, Walked, Accepted;
    if st.best.Some? { AcceptedExactlyWhenBorne(p, st.best.value.path); }
  }

  /** The route the call answers with is the first best of all routes its search has completed: none is shorter, and none
      as short is finished earlier. */
  lemma AnswersFirstBest(p: Problem, st: SearchState, outcome: Outcome, n: nat)
    requires ValidProblem(p) && Answers(p, st, outcome) && After(p, n) == st && st.queue == []
    ensures FirstBest(Completions(p, n), st.best)
    ensures outcome.Infeasible? <==> Completions(p, n) == []
    ensures outcome.Feasible? ==> exists i ::
      && 0 <= i < |Completions(p, n)| && Leads(Completions(p, n), i)
      && Completions(p, n)[i].path == outcome.route && Completions(p, n)[i].distance == outcome.distance
  {
    hide Walk, After, Completions, Leads, Accepted;
    KeepsFirstBest(p, n);
  }

  /** Where dominance is fair, the call reports infeasible exactly when there is no pattern, and no pattern is shorter than
      its route by more than the tolerance. */
  lemma FairAnswers(p: Problem, st: SearchState, outcome: Outcome)
    requires ValidProblem(p) && p.eps >= 0.0 && Fair(p) && Ends(p, st) && Answers(p, st, outcome)
    ensures outcome.Infeasible? <==> forall q :: !Pattern(p, q)
    ensures outcome.Feasible? ==>
      Pattern(p, outcome.route) && forall q | Pattern(p, q) :: outcome.distance <= Walk(p, q).value.distance + p.eps
  {
    hide Walk, Fair, After;
    var n: nat :| After(p, n) == st && st.queue == [];
    Exactness(p, n);
    if st.best.Some? { assert Pattern(p, st.best.value.path); }
  }

  /** On a sharp problem the call never fails: it returns a shortest pattern, with the totals the validator computes, or
      reports infeasible exactly when there is no pattern. */
  lemma SharpAnswers(p: Problem, st: SearchState, outcome: Outcome)
    requires Admitted(p) && ValidProblem(p) && Sharp(p) && Ends(p, st) && Answers(p, st, outcome)
    ensures !outcome.InvalidRoute? && (outcome.Infeasible? <==> forall q :: !Pattern(p, q))
    ensures outcome.Feasible? ==>
      (&& Pattern(p, outcome.route) && Walk(p, outcome.route).value.distance == outcome.distance
       && (forall q | Pattern(p, q) :: outcome.distance <= Walk(p, q).value.distance)
       && var r := ReportOf(p.inst, p.eps, outcome.route);
       r.distance == outcome.distance && r.energy == outcome.energy && r.charged == outcome.charged
       && r.chargeTime == outcome.chargeTime)
  {
    hide Walk, Sharp, After, ClampFree;
    var n: nat :| After(p, n) == st && st.queue == [];
    SharpExactness(p, n);
    if st.best.Some? {
      SharpClampFree(p, st.best.value.path);
      NotNegative(p);
      PatternAccepted(p, st.best.value.path);
    }
  }
}
