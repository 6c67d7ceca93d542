/** Why dominance must be fair for the search to be exact: at every positive tolerance a label can be pruned by one with
    less charge, and the only feasible route is lost with it. */
module UnfairDominance {
  import opened Options
  import opened EvrptwModel
  import opened PriorityQueue
  import opened ChargingSearch
  import opened ChargingExactness
  import opened RouteValidator
  import opened SearchAgreement

  function Spot(eps: real, v: nat): real { if v == 1 then eps else if v == 2 then 6.0 * eps else 0.0 }

  function Apart(x: real, y: real): real { if x >= y then x - y else y - x }

  /** Depot, station and customer on a line.  The detour over the station costs time and gains a charge of `eps`, without
      which the vehicle does not come back; the station is closed on the way back. */
  function Street(eps: real): Instance {
    Instance([Node(Depot, 0.0, 0.0, 100.0 * eps, 0.0), Node(Station, 0.0, 0.0, 4.0 * eps, 0.0),
              Node(Customer, 0.0, 0.0, 100.0 * eps, 0.0)],
             0, Vehicle(10.5 * eps, 0.0, 1.0, 2.0, 1.0), (a: nat, b: nat) => Apart(Spot(eps, a), Spot(eps, b)))
  }

  function Errand(eps: real): Problem { Problem(Street(eps), [2], eps) }

  lemma Lengths(eps: real)
    requires eps > 0.0
    ensures var s := Street(eps);
      && s.dist(0, 1) == Energy(s, 0, 1) == Travel(s, 0, 1) == eps
      && s.dist(1, 2) == Energy(s, 1, 2) == Travel(s, 1, 2) == 5.0 * eps
      && s.dist(2, 1) == Energy(s, 2, 1) == Travel(s, 2, 1) == 5.0 * eps
      && s.dist(0, 2) == Energy(s, 0, 2) == Travel(s, 0, 2) == 6.0 * eps
      && s.dist(2, 0) == Energy(s, 2, 0) == Travel(s, 2, 0) == 6.0 * eps
  {
  }

  lemma ErrandAdmitted(eps: real)
    requires eps > 0.0
    ensures WellFormed(Street(eps)) && Admitted(Errand(eps)) && ValidProblem(Errand(eps))
    ensures Stations(Street(eps)) == [1]
  {
    var s := Street(eps);
    assert forall a: nat, b: nat :: s.dist(a, b) == Apart(Spot(eps, a), Spot(eps, b));
    assert Metric(s.dist);
    assert [2][..0] == [] && TotalDemand(s, [2]) == 0.0;
    assert StationsBelow(s, 0) == [] && StationsBelow(s, 1) == [] && StationsBelow(s, 2) == [1];
  }

  // ---- the labels ----------------------------------------------------------------------------------------

  function Home(eps: real): Label { Label(0, 0, 0.0, 10.5 * eps, 0.0, 0.0, 0.0, 0.0, [0]) }

  function Straight(eps: real): Label { Label(1, 2, 6.0 * eps, 4.5 * eps, 6.0 * eps, 6.0 * eps, 0.0, 0.0, [0, 2]) }

  function Charged(eps: real): Label { Label(0, 1, 3.0 * eps, 10.5 * eps, eps, eps, eps, 2.0 * eps, [0, 1]) }

  function Refilled(eps: real): Label { Label(1, 2, 8.0 * eps, 5.5 * eps, 6.0 * eps, 6.0 * eps, eps, 2.0 * eps, [0, 1, 2]) }

  function Back(eps: real): Label { Label(1, 0, 14.0 * eps, 0.0, 12.0 * eps, 12.0 * eps, eps, 2.0 * eps, [0, 1, 2, 0]) }

  lemma Moves(eps: real)
    requires eps > 0.0
    ensures var p := Errand(eps);
      && Initial(p) == Home(eps)
      && Extend(p, Home(eps), 2, 1) == Some(Straight(eps)) && Extend(p, Home(eps), 1, 0) == Some(Charged(eps))
      && Extend(p, Charged(eps), 2, 1) == Some(Refilled(eps))
      && Extend(p, Straight(eps), 0, 1) == None && Extend(p, Straight(eps), 1, 1) == None
      && Extend(p, Refilled(eps), 0, 1) == Some(Back(eps))
  {
    Lengths(eps);
    hide Energy, Travel, Spot, Apart;
    assert [0] + [2] == [0, 2] && [0] + [1] == [0, 1] && [0, 1] + [2] == [0, 1, 2] && [0, 1, 2] + [0] == [0, 1, 2, 0];
  }

  lemma Offers(eps: real)
    requires eps > 0.0
    ensures var p := Errand(eps);
      && Successors(p, Home(eps)) == [(1, 2), (0, 1)] && Successors(p, Charged(eps)) == [(1, 2)]
      && Successors(p, Straight(eps)) == [(1, 0), (1, 1)] && (1, 0) in Successors(p, Refilled(eps))
  {
    ErrandAdmitted(eps);
    hide Metric;
    assert forall l :: StationMoves([], l) == [];
    assert forall l :: StationMoves([1], l) == if 1 != l.node then [(l.progress, 1)] else [];
  }

  // ---- the search ----------------------------------------------------------------------------------------

  function FirstState(eps: real): SearchState {
    SearchState(map[(0, 0) := [Home(eps)]], [Prioritized(Home(eps), 0)], None, 1, 0, 0, 1)
  }

  function SecondState(eps: real): SearchState {
    SearchState(map[(0, 0) := [Home(eps)], (1, 2) := [Straight(eps)], (0, 1) := [Charged(eps)]],
                [Prioritized(Straight(eps), 1), Prioritized(Charged(eps), 2)], None, 3, 1, 0, 3)
  }

  function ThirdState(eps: real): SearchState {
    SecondState(eps).(queue := [Prioritized(Straight(eps), 1)], generated := 4, expanded := 2, pruned := 1)
  }

  lemma TwoMoves(p: Problem, l: Label, a: Key, b: Key, st: SearchState)
    requires a.1 < |p.inst.nodes| && b.1 < |p.inst.nodes| && p.inst.vehicle.velocity != 0.0
    ensures RelaxAll(p, l, [a], st) == Relax(p, l, a, st)
    ensures RelaxAll(p, l, [a, b], st) == Relax(p, l, b, Relax(p, l, a, st))
  {
    hide Relax;
    assert [a, b][1..] == [b] && [a][1..] == [] && [b][1..] == [];
    assert RelaxAll(p, l, [b], Relax(p, l, a, st)) == Relax(p, l, b, Relax(p, l, a, st));
  }

  lemma FileFirst(p: Problem, st: SearchState, c: Label)
    requires Bucket(st, KeyOf(c)) == [] && !IsTerminal(p, c.progress, c.node)
    ensures File(p, st, c) == st.(labels := st.labels[KeyOf(c) := [c]], queue := st.queue + [Prioritized(c, st.serial)],
                                  serial := st.serial + 1)
  {
    assert Undominated(p.eps, [], c) + [c] == [c];
  }

  /** From the depot both labels are filed. */
  lemma FirstTurn(eps: real)
    requires eps > 0.0 && Runnable(Errand(eps))
    ensures Iterate(Errand(eps), FirstState(eps)) == SecondState(eps)
  {
    hide Extend, Successors, Metric, Dominates;
    Moves(eps);
    Offers(eps);
    var p, st, l := Errand(eps), FirstState(eps), Home(eps);
    var rest := st.(queue := [], expanded := 1);
    assert Without(st.queue, 0) == [];
    TwoMoves(p, l, (1, 2), (0, 1), rest);
    var one := Relax(p, l, (1, 2), rest);
    FileFirst(p, rest.(generated := 2), Straight(eps));
    assert one.labels == map[(0, 0) := [Home(eps)], (1, 2) := [Straight(eps)]];
    assert one.queue == [Prioritized(Straight(eps), 1)];
    var two := Relax(p, l, (0, 1), one);
    FileFirst(p, one.(generated := 3), Charged(eps));
    assert two.labels == SecondState(eps).labels;
    assert two.queue == [Prioritized(Straight(eps), 1)] + [Prioritized(Charged(eps), 2)];
  }

  /** The label with the charge is pruned. */
  lemma SecondTurn(eps: real)
    requires eps > 0.0 && Runnable(Errand(eps))
    ensures Iterate(Errand(eps), SecondState(eps)) == ThirdState(eps)
  {
    hide Extend, Successors, Metric;
    Moves(eps);
    Offers(eps);
    var p, st, l := Errand(eps), SecondState(eps), Charged(eps);
    assert MinIndex(st.queue) == 1;
    assert Without(st.queue, 1) == [Prioritized(Straight(eps), 1)];
    TwoMoves(p, l, (1, 2), (1, 2), st.(queue := [Prioritized(Straight(eps), 1)], expanded := 2));
    assert Dominates(eps, Straight(eps), Refilled(eps));
  }

  /** And nothing can be reached without it. */
  lemma ThirdTurn(eps: real)
    requires eps > 0.0 && Runnable(Errand(eps))
    ensures Iterate(Errand(eps), ThirdState(eps)).queue == [] && Iterate(Errand(eps), ThirdState(eps)).best.None?
  {
    hide Extend, Successors, Metric, Dominates;
    Moves(eps);
    Offers(eps);
    var p, st, l := Errand(eps), ThirdState(eps), Straight(eps);
    assert Without(st.queue, 0) == [];
    TwoMoves(p, l, (1, 0), (1, 1), st.(queue := [], expanded := 3));
  }

  // ---- the route lost --------------------------------------------------------------------------------------

  lemma RouteIsPattern(eps: real)
    requires eps > 0.0 && Runnable(Errand(eps))
    ensures Walk(Errand(eps), [0, 1, 2, 0]) == Some(Back(eps)) && Pattern(Errand(eps), [0, 1, 2, 0])
  {
    hide Extend, Successors;
    Moves(eps);
    Offers(eps);
    var p := Errand(eps);
    assert [0, 1, 2, 0][..3] == [0, 1, 2] && [0, 1, 2][..2] == [0, 1] && [0, 1][..1] == [0];
    assert Walk(p, [0]) == Some(Home(eps));
    assert Walk(p, [0, 1]) == Some(Charged(eps));
    assert Walk(p, [0, 1, 2]) == Some(Refilled(eps));
  }

  lemma RouteDriven(eps: real)
    requires eps > 0.0 && WellFormed(Street(eps))
    ensures Known(Street(eps), [0, 1, 2, 0]) && DriveOf(Street(eps), eps, [0, 1, 2, 0]).violations == []
  {
    hide Metric, Energy, Travel, Spot, Apart;
    Lengths(eps);
    var s := Street(eps);
    assert [0, 1, 2, 0][..3] == [0, 1, 2] && [0, 1, 2][..2] == [0, 1] && [0, 1][..1] == [0];
    assert DriveOf(s, eps, [0, 1]) == Drive(3.0 * eps, 10.5 * eps, eps, eps, eps, 2.0 * eps, []);
    assert DriveOf(s, eps, [0, 1, 2]) == Drive(8.0 * eps, 5.5 * eps, 6.0 * eps, 6.0 * eps, eps, 2.0 * eps, []);
  }

  lemma RouteServes(eps: real)
    ensures CustomersOf(Street(eps), [0, 1, 2, 0]) == [2]
  {
    var s := Street(eps);
    assert [0, 1, 2, 0][..3] == [0, 1, 2] && [0, 1, 2][..2] == [0, 1] && [0, 1][..1] == [0];
    assert CustomersOf(s, [0]) == [] && CustomersOf(s, [0, 1]) == [];
    assert CustomersOf(s, [0, 1, 2]) == [2];
  }

  lemma RouteAccepted(eps: real)
    requires eps > 0.0 && WellFormed(Street(eps))
    ensures Known(Street(eps), [0, 1, 2, 0]) && Accepted(Street(eps), eps, [0, 1, 2, 0])
    ensures CustomersOf(Street(eps), [0, 1, 2, 0]) == [2]
  {
    hide DriveOf, CustomersOf, Metric;
    RouteDriven(eps);
    RouteServes(eps);
    assert [2][..0] == [] && TotalDemand(Street(eps), [2]) == 0.0;
    assert EndsAtDepot(Street(eps), [0, 1, 2, 0]);
  }

  /** At every positive tolerance there is an order for which the finished search has nothing, although a pattern exists
      and the validator accepts it: dominance there is not fair. */
  lemma PatternLost(eps: real)
    requires eps > 0.0
    ensures var p, route := Errand(eps), [0, 1, 2, 0];
      && Admitted(p) && ValidProblem(p) && After(p, 3).queue == [] && After(p, 3).best.None?
      && Pattern(p, route) && Known(p.inst, route) && Accepted(p.inst, eps, route) && CustomersOf(p.inst, route) == p.order
      && !Fair(p)
  {
    hide Walk, Iterate, Accepted, CustomersOf, Metric, Fair;
    var p := Errand(eps);
    ErrandAdmitted(eps);
    assert After(p, 0) == FirstState(eps) by { Moves(eps); }
    FirstTurn(eps);
    SecondTurn(eps);
    ThirdTurn(eps);
    assert After(p, 2) == Iterate(p, After(p, 1));
    RouteIsPattern(eps);
    RouteAccepted(eps);
    if Fair(p) { Exactness(p, 3); }
  }

  // ---- fairness is exactly what dominance needs --------------------------------------------------------------

  /** On every instance with this tolerance, `l` can make each leg that `r` can, and ends it no further on. */
  ghost predicate CanReplace(eps: real, l: Label, r: Label) {
    forall p, k: Key | ValidProblem(p) && p.eps == eps && k.1 < |p.inst.nodes| && Extend(p, r, k.1, k.0).Some? ::
      Extend(p, l, k.1, k.0).Some? && Extend(p, l, k.1, k.0).value.distance <= Extend(p, r, k.1, k.0).value.distance
  }

  /** The depot at distance `d` from everything, open at its due date only. */
  function Yard(eps: real, node: nat, d: real, due: real): Problem {
    Problem(Instance(seq(node + 2, i => Node(if i == node + 1 then Depot else Customer, 0.0, due, due, 0.0)),
                     node + 1, Vehicle(1.0, 0.0, 1.0, 0.0, 1.0), (a: nat, b: nat) => if a == b then 0.0 else d), [], eps)
  }

  lemma YardLeg(eps: real, d: real, due: real, l: Label)
    requires d >= 0.0 && eps >= 0.0
    ensures var p := Yard(eps, l.node, d, due);
      && ValidProblem(p) && l.node + 1 < |p.inst.nodes|
      && var e := Extend(p, l, l.node + 1, 0);
      && (e.Some? <==> d <= l.battery + eps && l.time + d <= due + eps)
      && (e.Some? ==> e.value.distance == l.distance + d)
  {
    var p := Yard(eps, l.node, d, due);
    assert Metric(p.inst.dist);
    assert p.inst.nodes[l.node + 1].kind.Depot?;
    assert Energy(p.inst, l.node, l.node + 1) == d && Travel(p.inst, l.node, l.node + 1) == d;
  }

  /** A label can stand in for another on every instance exactly when it is no worse. */
  lemma ReplaceExactly(eps: real, l: Label, r: Label)
    requires eps >= 0.0 && l.node == r.node && r.battery >= 0.0
    ensures CanReplace(eps, l, r) <==> NoWorse(l, r)
  {
    hide Extend, Metric;
    if NoWorse(l, r) {
      forall p, k: Key | ValidProblem(p) && p.eps == eps && k.1 < |p.inst.nodes| && Extend(p, r, k.1, k.0).Some?
        ensures Extend(p, l, k.1, k.0).Some? && Extend(p, l, k.1, k.0).value.distance <= Extend(p, r, k.1, k.0).value.distance
      {
        ExtendMonotone(p, l, r, k);
      }
    }
    if CanReplace(eps, l, r) {
      var k: Key := (0, l.node + 1);
      var near := Yard(eps, l.node, 0.0, r.time - eps);
      YardLeg(eps, 0.0, r.time - eps, l);
      YardLeg(eps, 0.0, r.time - eps, r);
      assert Extend(near, r, k.1, k.0).Some?;
      var far, d := Yard(eps, l.node, r.battery + eps, r.time + r.battery + eps), r.battery + eps;
      YardLeg(eps, d, r.time + d, l);
      YardLeg(eps, d, r.time + d, r);
      assert Extend(far, r, k.1, k.0).Some?;
    }
  }

  /** If `l` prunes `r`, it can stand in for it on every instance. */
  ghost predicate StandsIn(eps: real, l: Label, r: Label) {
    KeyOf(l) == KeyOf(r) && Dominates(eps, l, r) ==> CanReplace(eps, l, r)
  }

  ghost predicate AllStandIn(p: Problem)
    requires Runnable(p)
  {
    forall q, r | Walk(p, q).Some? && Walk(p, r).Some? :: StandsIn(p.eps, Walk(p, q).value, Walk(p, r).value)
  }

  /** Dominance is fair exactly when each label that prunes another can stand in for it on every instance. */
  lemma FairExactly(p: Problem)
    requires ValidProblem(p) && p.eps >= 0.0
    ensures Fair(p) <==> AllStandIn(p)
  {
    hide Walk, Metric, FairTo, StandsIn;
    forall q, r | Walk(p, q).Some? && Walk(p, r).Some?
      ensures StandsIn(p.eps, Walk(p, q).value, Walk(p, r).value) <==> FairTo(p.eps, Walk(p, q).value, Walk(p, r).value)
    {
      WalkPlaced(p, r);
      SameFairness(p.eps, Walk(p, q).value, Walk(p, r).value);
    }
  }

  lemma SameFairness(eps: real, l: Label, r: Label)
    requires eps >= 0.0 && r.battery >= 0.0
    ensures StandsIn(eps, l, r) <==> FairTo(eps, l, r)
  {
    hide Dominates, CanReplace, NoWorse;
    assert Harmless(eps, l, r) <==> (Dominates(eps, l, r) ==> NoWorse(l, r));
    if KeyOf(l) == KeyOf(r) { ReplaceExactly(eps, l, r); }
  }
}
