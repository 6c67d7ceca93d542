/** What a rejection by the screen means for the exact search, and what the tolerance costs. */
module ScreenAndSearch {
  import opened Options
  import opened EvrptwModel
  import opened PriorityQueue
  import opened ChargingSearch
  import opened ChargingExactness
  import opened RouteValidator
  import opened SearchAgreement
  import opened ClampedRoutes
  import opened GridInstances
  import opened SafeScreen
  import opened ScreenSoundness

  /** On a sharp problem a rejected order has no station-insertion pattern: the search finds it infeasible. */
  lemma RejectedIsInfeasible(p: Problem, n: nat)
    requires Admitted(p) && Runnable(p) && Sharp(p) && p.order != [] && After(p, n).queue == []
    requires Known(p.inst, p.order) && !Screens(p.inst, p.eps, p.order)
    ensures After(p, n).best.None? && forall q :: !Pattern(p, q)
  {
    hide Walk, Accepted, Screens, TotalDemand, ClampFree, Sharp;
    AdmittedIsValid(p);
    NotNegative(p);
    AlwaysSound(p, n);
    assert After(p, n).best.Some? ==> Pattern(p, After(p, n).best.value.path);
    forall q ensures !Pattern(p, q) {
      if Pattern(p, q) {
        SharpClampFree(p, q);
        PatternAccepted(p, q);
        PatternShape(p, q);
        ScreenIsSafe(p.inst, p.eps, p.order, q);
      }
    }
  }

  /** At any tolerance a rejected order has no route the final validation would let through, so the search
      never returns one for it. */
  lemma RejectedIsNeverReturned(p: Problem, path: seq<nat>)
    requires Admitted(p) && p.eps >= 0.0 && p.order != [] && Runnable(p)
    requires Known(p.inst, p.order) && !Screens(p.inst, p.eps, p.order)
    ensures !(Known(p.inst, path) && Accepted(p.inst, p.eps, path) && CustomersOf(p.inst, path) == p.order)
  {
    hide Accepted, Screens, TotalDemand;
    AdmittedIsValid(p);
    if Known(p.inst, path) && Accepted(p.inst, p.eps, path) && CustomersOf(p.inst, path) == p.order {
      ScreenIsSafe(p.inst, p.eps, p.order, path);
    }
  }

  // ---- the tolerance ---------------------------------------------------------------------------------------

  function Place(eps: real, v: nat): real {
    if v == 1 then 2.0 * eps else if v == 2 then eps else 0.0
  }

  function Abs(x: real): real { if x >= 0.0 then x else -x }

  /** The depot and two customers on a line; every leg of depot, 1, 2, depot overdraws by at most `eps`. */
  function Line(eps: real): Instance {
    Instance([Node(Depot, 0.0, 0.0, 100.0 * eps, 0.0), Node(Customer, 0.0, 0.0, 100.0 * eps, 0.0),
              Node(Customer, 0.0, 0.0, 100.0 * eps, 0.0)],
             0, Vehicle(2.0 * eps, 0.0, 1.0, 0.0, 1.0), (a: nat, b: nat) => Abs(Place(eps, a) - Place(eps, b)))
  }

  function LineProblem(eps: real): Problem { Problem(Line(eps), [1, 2], eps) }

  function LineLabel(eps: real, k: nat): Label
    requires k <= 3
  {
    if k == 0 then Label(0, 0, 0.0, 2.0 * eps, 0.0, 0.0, 0.0, 0.0, [0])
    else if k == 1 then Label(1, 1, 2.0 * eps, 0.0, 2.0 * eps, 2.0 * eps, 0.0, 0.0, [0, 1])
    else if k == 2 then Label(2, 2, 3.0 * eps, 0.0, 3.0 * eps, 3.0 * eps, 0.0, 0.0, [0, 1, 2])
    else Label(2, 0, 4.0 * eps, 0.0, 4.0 * eps, 4.0 * eps, 0.0, 0.0, [0, 1, 2, 0])
  }

  lemma LineDistances(eps: real)
    ensures forall a: nat, b: nat :: Line(eps).dist(a, b) == Abs(Place(eps, a) - Place(eps, b))
  {
  }

  lemma LineWellFormed(eps: real)
    requires eps > 0.0
    ensures WellFormed(Line(eps)) && Stations(Line(eps)) == []
  {
    var inst := Line(eps);
    LineDistances(eps);
    assert Metric(inst.dist);
    assert StationsBelow(inst, 0) == [] && StationsBelow(inst, 1) == [] && StationsBelow(inst, 2) == [];
  }

  lemma LineAdmitted(eps: real)
    requires eps > 0.0
    ensures Admitted(LineProblem(eps)) && ValidProblem(LineProblem(eps))
  {
    LineWellFormed(eps);
    var inst := Line(eps);
    assert [1, 2][..1] == [1] && [1][..0] == [];
    assert TotalDemand(inst, [1]) == 0.0;
    assert TotalDemand(inst, [1, 2]) == 0.0;
    assert inst.nodes[1].kind.Customer? && inst.nodes[2].kind.Customer?;
    hide Metric;
    AdmittedIsValid(LineProblem(eps));
  }

  function LineMove(k: nat): Key { if k == 2 then (2, 0) else (k + 1, k + 1) }

  lemma LineSuccessors(eps: real, k: nat)
    requires eps > 0.0 && k < 3
    ensures Successors(LineProblem(eps), LineLabel(eps, k)) == [LineMove(k)]
  {
    hide Metric, Energy, Place, Abs;
    LineWellFormed(eps);
    assert StationMoves([], LineLabel(eps, k)) == [];
  }

  lemma LineArrival(eps: real, k: nat)
    requires eps > 0.0 && k < 3
    ensures var inst, l := Line(eps), LineLabel(eps, k); var d := if k == 0 then 2.0 * eps else eps;
      && LineMove(k).1 < 3 && inst.dist(l.node, LineMove(k).1) == d && Energy(inst, l.node, LineMove(k).1) == d
      && Arrive(inst, eps, l.time, l.battery, l.node, LineMove(k).1) == Some(Arrival(l.time + d, 0.0, 0.0, 0.0))
  {
    LineDistances(eps);
  }

  lemma LineLeg(eps: real, k: nat)
    requires eps > 0.0 && k < 3
    ensures var p, l, move := LineProblem(eps), LineLabel(eps, k), LineMove(k);
      && move.1 < |p.inst.nodes| && Successors(p, l) == [move]
      && Extend(p, l, move.1, move.0) == Some(LineLabel(eps, k + 1))
  {
    hide Metric, Energy, Place, Abs, Arrive, Successors;
    LineSuccessors(eps, k);
    LineArrival(eps, k);
    assert LineLabel(eps, k).path + [LineMove(k).1] == LineLabel(eps, k + 1).path;
  }

  /** The search holding just the label after `k` legs. */
  ghost predicate AtLabel(eps: real, k: nat, st: SearchState)
    requires k < 3
  {
    && |st.queue| == 1 && st.queue[0].item == LineLabel(eps, k) && st.best.None?
    && Live(st, LineLabel(eps, k)) && (forall j | k < j < 3 :: KeyOf(LineLabel(eps, j)) !in st.labels)
  }

  lemma LineTurn(eps: real, k: nat, st: SearchState)
    requires eps > 0.0 && k < 3 && AtLabel(eps, k, st) && Runnable(LineProblem(eps))
    ensures var st' := Iterate(LineProblem(eps), st);
      if k < 2 then AtLabel(eps, k + 1, st') else st'.queue == [] && st'.best == Some(LineLabel(eps, 3))
  {
    LineLeg(eps, k);
    hide Successors, Extend, Metric;
    var p, l := LineProblem(eps), LineLabel(eps, k);
    var rest := st.(queue := Without(st.queue, 0), expanded := st.expanded + 1);
    assert Without(st.queue, 0) == [];
    assert Iterate(p, st) == RelaxAll(p, l, [LineMove(k)], rest);
    assert RelaxAll(p, l, [LineMove(k)], rest) == Relax(p, l, LineMove(k), rest);
  }

  /** At every positive tolerance the search can end with a route that its own final validation rejects (the call
      then fails instead of answering), and the screen rejects the order although the search loop finds a route:
      clamping the battery at zero lets each leg overdraw anew. */
  lemma ToleranceMismatch(eps: real)
    requires eps > 0.0
    ensures var p := LineProblem(eps);
      && Admitted(p) && Runnable(p)
      && var st := After(p, 3);
      && st.queue == [] && st.best.Some? && CustomersOf(p.inst, st.best.value.path) == p.order
      && !Accepted(p.inst, eps, st.best.value.path)
      && Known(p.inst, p.order) && !Screens(p.inst, eps, p.order)
  {
    var p := LineProblem(eps);
    LineAdmitted(eps);
    LineStart(eps);
    LineTurn(eps, 0, After(p, 0));
    LineTurn(eps, 1, After(p, 1));
    LineTurn(eps, 2, After(p, 2));
    LineRejected(eps);
  }

  lemma LineStart(eps: real)
    requires eps > 0.0 && Runnable(LineProblem(eps))
    ensures AtLabel(eps, 0, Start(LineProblem(eps)))
  {
    assert Initial(LineProblem(eps)) == LineLabel(eps, 0);
  }

  lemma LineDrive(eps: real)
    requires eps > 0.0 && WellFormed(Line(eps))
    ensures var inst := Line(eps);
      && Known(inst, [0, 1, 2, 0]) && DriveOf(inst, eps, [0, 1, 2, 0]).violations == [BatteryDepleted(3)]
  {
    LineDistances(eps);
    hide Metric;
    var inst := Line(eps);
    assert [0, 1, 2, 0][..3] == [0, 1, 2] && [0, 1, 2][..2] == [0, 1] && [0, 1][..1] == [0];
    assert DriveOf(inst, eps, [0, 1]) == Drive(2.0 * eps, 0.0, 2.0 * eps, 2.0 * eps, 0.0, 0.0, []);
    assert DriveOf(inst, eps, [0, 1, 2]) == Drive(3.0 * eps, -eps, 3.0 * eps, 3.0 * eps, 0.0, 0.0, []);
  }

  lemma LineRejected(eps: real)
    requires eps > 0.0 && WellFormed(Line(eps))
    ensures var path := [0, 1, 2, 0];
      CustomersOf(Line(eps), path) == [1, 2] && Known(Line(eps), path) && !Accepted(Line(eps), eps, path)
    ensures Known(Line(eps), [1, 2]) && !Screens(Line(eps), eps, [1, 2])
  {
    var inst := Line(eps);
    LineDrive(eps);
    LineServes(eps);
    LineUnbracketed(eps);
    hide DriveOf, CustomersOf, TotalDemand, Bracketed, OnTime, EnergyReachable, Metric, ShapeViolations;
    var path := [0, 1, 2, 0];
    assert ReportOf(inst, eps, path).violations == ShapeViolations(inst, eps, path) + [BatteryDepleted(3)];
    assert BatteryDepleted(3) in ReportOf(inst, eps, path).violations;
    assert [1, 2][0] == 1;
  }

  lemma LineServes(eps: real)
    ensures CustomersOf(Line(eps), [0, 1, 2, 0]) == [1, 2]
  {
    var inst := Line(eps);
    assert [0, 1, 2, 0][..3] == [0, 1, 2] && [0, 1, 2][..2] == [0, 1] && [0, 1][..1] == [0];
    assert CustomersOf(inst, [0]) == [] && CustomersOf(inst, [0, 1]) == [1];
    assert CustomersOf(inst, [0, 1, 2]) == [1, 2];
  }

  lemma LineUnbracketed(eps: real)
    requires eps > 0.0
    ensures !Bracketed(Line(eps), eps, 1)
  {
    LineDistances(eps);
    var inst := Line(eps);
    forall u, w | Recharge(inst, u) && Recharge(inst, w) ensures Through(inst, u, 1, w) > inst.vehicle.battery + eps {
      assert u == 0 && w == 0;
      assert inst.dist(0, 1) == 2.0 * eps && inst.dist(1, 0) == 2.0 * eps;
    }
  }
}
