/** What the battery clamp costs: at a positive tolerance the search forgets every overdraft, the validator does not.
    For every pattern this says exactly when the validator accepts it. */
module ClampedRoutes {
  import opened Options
  import opened EvrptwModel
  import opened ChargingSearch
  import opened RouteValidator
  import opened SearchAgreement

  /** Energy used since the last full charge when the `n`-th node of the path is left. */
  function Used(inst: Instance, path: seq<nat>, n: nat): real
    requires n <= |path|
    decreases n, 1
  {
    if n <= 1 || IsStation(inst, path[n - 1]) then 0.0 else Stretch(inst, path, n)
  }

  /** Energy used since the last full charge when the `n`-th node is reached. */
  function Stretch(inst: Instance, path: seq<nat>, n: nat): real
    requires 1 < n <= |path|
    decreases n, 0
  {
    Used(inst, path, n - 1) + Energy(inst, path[n - 2], path[n - 1])
  }

  ghost predicate Walked(p: Problem, path: seq<nat>)
    requires Runnable(p)
  {
    Known(p.inst, path) && path != [] && forall n | 0 < n <= |path| :: Walk(p, path[..n]).Some?
  }

  ghost function LabelAt(p: Problem, path: seq<nat>, n: nat): Label
    requires Runnable(p) && Walked(p, path) && 0 < n <= |path|
  {
    Walk(p, path[..n]).value
  }

  /** When the search reaches the `n`-th node. */
  ghost function Reached(p: Problem, path: seq<nat>, n: nat): real
    requires Runnable(p) && Walked(p, path) && 1 < n <= |path|
  {
    Max(LabelAt(p, path, n - 1).time + Travel(p.inst, path[n - 2], path[n - 1]), p.inst.nodes[path[n - 1]].ready)
  }

  /** When the node is reached once all overdrafts are charged for. */
  ghost function ReachedLate(p: Problem, path: seq<nat>, n: nat): real
    requires Runnable(p) && Walked(p, path) && 1 < n <= |path|
    decreases n, 0
  {
    Max(LabelAt(p, path, n - 1).time + Delay(p, path, n - 1) + Travel(p.inst, path[n - 2], path[n - 1]),
        p.inst.nodes[path[n - 1]].ready)
  }

  /** How much later the node is left than the search believes: what is left of earlier delay, and at a station the
      time to charge what the search has forgotten. */
  ghost function Delay(p: Problem, path: seq<nat>, n: nat): real
    requires Runnable(p) && Walked(p, path) && 0 < n <= |path|
    decreases n, 1
  {
    if n == 1 then 0.0
    else
      ReachedLate(p, path, n) - Reached(p, path, n)
      + if IsStation(p.inst, path[n - 1]) then Forgotten(p, path, n) * p.inst.vehicle.refuelRate else 0.0
  }

  /** What the search does not charge for at a station: the energy used since the last one, less what it charges. */
  ghost function Forgotten(p: Problem, path: seq<nat>, n: nat): real
    requires Runnable(p) && Walked(p, path) && 1 < n <= |path|
    decreases n, 0
  {
    Stretch(p.inst, path, n) - (LabelAt(p, path, n).charged - LabelAt(p, path, n - 1).charged)
  }

  /** Within battery and time up to the tolerance, overdrafts charged for. */
  ghost predicate Bears(p: Problem, path: seq<nat>, n: nat)
    requires Runnable(p) && Walked(p, path) && 1 < n <= |path|
  {
    && Stretch(p.inst, path, n) <= p.inst.vehicle.battery + p.eps
    && ReachedLate(p, path, n) <= p.inst.nodes[path[n - 1]].due + p.eps
  }

  lemma UsedNonNegative(inst: Instance, path: seq<nat>, n: nat)
    requires WellFormed(inst) && n <= |path|
    ensures Used(inst, path, n) >= 0.0 && (n > 1 ==> Stretch(inst, path, n) >= 0.0)
  {
    if n > 1 {
      UsedNonNegative(inst, path, n - 1);
      LegNonNegative(inst, path[n - 2], path[n - 1]);
    }
  }

  /** The last leg of a walk. */
  lemma LastLeg(p: Problem, path: seq<nat>, n: nat)
    requires ValidProblem(p) && Walked(p, path) && 1 < n <= |path|
    ensures path[n - 1] < |p.inst.nodes| && LabelAt(p, path, n - 1).node == path[n - 2]
    ensures Extend(p, LabelAt(p, path, n - 1), path[n - 1], LabelAt(p, path, n).progress) == Some(LabelAt(p, path, n))
  {
    hide Extend, Walk, Metric;
    assert path[..n][..n - 1] == path[..n - 1];
    WalkPlaced(p, path[..n - 1]);
    WalkOneMore(p, path[..n]);
  }

  lemma LastDrive(p: Problem, path: seq<nat>, n: nat)
    requires ValidProblem(p) && Walked(p, path) && 1 < n <= |path|
    ensures DriveOf(p.inst, p.eps, path[..n])
      == DriveLeg(p.inst, p.eps, DriveOf(p.inst, p.eps, path[..n - 1]), path[n - 2], path[n - 1], n - 1)
  {
    hide DriveLeg, DriveOf, Walk;
    DriveStep(p.inst, p.eps, path, n - 1);
  }

  /** One step of the quantities compared. */
  lemma OneStep(p: Problem, path: seq<nat>, n: nat, late: real)
    requires ValidProblem(p) && Walked(p, path) && 1 < n <= |path|
    requires late == LabelAt(p, path, n - 1).time + Delay(p, path, n - 1) + Travel(p.inst, path[n - 2], path[n - 1])
    ensures Stretch(p.inst, path, n) == Used(p.inst, path, n - 1) + Energy(p.inst, path[n - 2], path[n - 1])
    ensures Used(p.inst, path, n) == if IsStation(p.inst, path[n - 1]) then 0.0 else Stretch(p.inst, path, n)
    ensures ReachedLate(p, path, n) == Max(late, p.inst.nodes[path[n - 1]].ready)
    ensures Delay(p, path, n) == (ReachedLate(p, path, n) - Reached(p, path, n))
      + (if IsStation(p.inst, path[n - 1]) then Forgotten(p, path, n) * p.inst.vehicle.refuelRate else 0.0)
  {
    hide LabelAt, Energy, Travel, Metric, Max, Reached, Forgotten;
  }

  lemma WalkOneMore(p: Problem, path: seq<nat>)
    requires Runnable(p) && |path| > 1 && Walk(p, path).Some?
    ensures Walk(p, path[..|path| - 1]).Some? && path[|path| - 1] < |p.inst.nodes|
    ensures Extend(p, Walk(p, path[..|path| - 1]).value, path[|path| - 1], Walk(p, path).value.progress) == Walk(p, path)
  {
  }

  /** One leg, by the clock and the battery of both. */
  lemma LegCompared(p: Problem, d: Drive, l: Label, dest: nat, progress: nat, leg: nat, used: real, delay: real,
                    stretch: real, late: real, extra: real)
    requires ValidProblem(p) && dest < |p.inst.nodes| && Extend(p, l, dest, progress).Some?
    requires d.battery == p.inst.vehicle.battery - used && d.time == l.time + delay && used >= 0.0
    requires stretch == used + Energy(p.inst, l.node, dest)
    requires late == Max(l.time + delay + Travel(p.inst, l.node, dest), p.inst.nodes[dest].ready)
    requires extra == stretch - (Extend(p, l, dest, progress).value.charged - l.charged)
    ensures var m, e := Extend(p, l, dest, progress).value, DriveLeg(p.inst, p.eps, d, l.node, dest, leg);
      var reached := Max(l.time + Travel(p.inst, l.node, dest), p.inst.nodes[dest].ready);
      && e.battery == p.inst.vehicle.battery - (if IsStation(p.inst, dest) then 0.0 else stretch)
      && e.time == m.time + (late - reached) + (if IsStation(p.inst, dest) then extra * p.inst.vehicle.refuelRate else 0.0)
      && (e.violations == [] <==>
            d.violations == [] && stretch <= p.inst.vehicle.battery + p.eps && late <= p.inst.nodes[dest].due + p.eps)
  {
    hide Energy, Travel, Metric;
    LegNonNegative(p.inst, l.node, dest);
    var charged := Extend(p, l, dest, progress).value.charged - l.charged;
    assert extra * p.inst.vehicle.refuelRate == stretch * p.inst.vehicle.refuelRate - charged * p.inst.vehicle.refuelRate;
  }

  /** The validator's battery is the stretch's balance, its clock the search's plus the delay, and it has nothing to
      object to exactly if every node so far bears it. */
  lemma {:induction false} DriveCompared(p: Problem, path: seq<nat>, n: nat)
    requires ValidProblem(p) && Walked(p, path) && 0 < n <= |path|
    ensures var d := DriveOf(p.inst, p.eps, path[..n]);
      && d.battery == p.inst.vehicle.battery - Used(p.inst, path, n) && d.time == LabelAt(p, path, n).time + Delay(p, path, n)
      && (d.violations == [] <==> forall m | 1 < m <= n :: Bears(p, path, m))
  {
    hide Walk, Extend, DriveOf, DriveLeg, Metric, LabelAt, Energy, Travel, Bears, Used, Delay, Stretch, ReachedLate, Max;
    if n == 1 {
      FirstCompared(p, path);
    } else {
      DriveCompared(p, path, n - 1);
      LastLeg(p, path, n);
      LastDrive(p, path, n);
      UsedNonNegative(p.inst, path, n - 1);
      var late := LabelAt(p, path, n - 1).time + Delay(p, path, n - 1) + Travel(p.inst, path[n - 2], path[n - 1]);
      OneStep(p, path, n, late);
      LegCompared(p, DriveOf(p.inst, p.eps, path[..n - 1]), LabelAt(p, path, n - 1), path[n - 1], LabelAt(p, path, n).progress, n - 1,
                  Used(p.inst, path, n - 1), Delay(p, path, n - 1), Stretch(p.inst, path, n), ReachedLate(p, path, n),
                  Forgotten(p, path, n));
      BearsStep(p, path, n);
    }
  }

  lemma BearsStep(p: Problem, path: seq<nat>, n: nat)
    requires Runnable(p) && Walked(p, path) && 1 < n <= |path|
    ensures (forall m | 1 < m <= n :: Bears(p, path, m)) <==> (forall m | 1 < m <= n - 1 :: Bears(p, path, m)) && Bears(p, path, n)
    ensures Bears(p, path, n) <==>
      Stretch(p.inst, path, n) <= p.inst.vehicle.battery + p.eps && ReachedLate(p, path, n) <= p.inst.nodes[path[n - 1]].due + p.eps
  {
    hide LabelAt, Energy, Travel, Used, Delay, Stretch, ReachedLate, Metric;
  }

  lemma FirstCompared(p: Problem, path: seq<nat>)
    requires ValidProblem(p) && Walked(p, path)
    ensures DriveOf(p.inst, p.eps, path[..1]).battery == p.inst.vehicle.battery
    ensures DriveOf(p.inst, p.eps, path[..1]).time == LabelAt(p, path, 1).time && DriveOf(p.inst, p.eps, path[..1]).violations == []
    ensures Used(p.inst, path, 1) == 0.0 && Delay(p, path, 1) == 0.0
  {
    assert path[..1] == [path[0]];
  }

  lemma PatternWalked(p: Problem, path: seq<nat>)
    requires ValidProblem(p) && Walk(p, path).Some?
    ensures Walked(p, path)
  {
    hide Walk;
    WalkPlaced(p, path);
    forall n | 0 < n <= |path| ensures Walk(p, path[..n]).Some? { WalkOn(p, path, n); }
  }

  /** At every tolerance a pattern is accepted if and only if each stretch between recharges keeps within the battery
      and, with all overdrafts charged for, every node is reached by its due date, both up to the tolerance. */
  lemma AcceptedExactlyWhenBorne(p: Problem, path: seq<nat>)
    requires Admitted(p) && ValidProblem(p) && Pattern(p, path)
    ensures Walked(p, path)
    ensures Accepted(p.inst, p.eps, path) <==> forall n | 1 < n <= |path| :: Bears(p, path, n)
  {
    hide Walk, DriveOf, Bears;
    PatternWalked(p, path);
    DriveCompared(p, path, |path|);
    assert path[..|path|] == path;
    PatternShape(p, path);
  }

  /** The shape and the load of a pattern are never at fault. */
  lemma PatternShape(p: Problem, path: seq<nat>)
    requires Admitted(p) && ValidProblem(p) && Pattern(p, path)
    ensures Known(p.inst, path) && ShapeViolations(p.inst, p.eps, path) == [] && CustomersOf(p.inst, path) == p.order
  {
    WalkPlaced(p, path);
    InteriorFree(p, path);
    assert p.order[..|p.order|] == p.order;
  }
}
