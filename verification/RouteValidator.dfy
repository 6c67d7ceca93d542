/** The independent route validator: it re-drives a route leg by leg and lists what is wrong with it. */
module RouteValidator {
  import opened EvrptwModel

  datatype Violation =
    | BadEnds
    | UnknownNodes
    | InteriorDepot
    | Overload
    | BatteryDepleted(leg: nat)
    | LateArrival(leg: nat)

  datatype Report = Report(distance: real, finish: real, energy: real, charged: real, chargeTime: real,
                           violations: seq<Violation>)

  /** The running totals of the drive. */
  datatype Drive = Drive(time: real, battery: real, distance: real, energy: real, charged: real, chargeTime: real,
                         violations: seq<Violation>)

  predicate Known(inst: Instance, route: seq<nat>) {
    forall i | 0 <= i < |route| :: route[i] < |inst.nodes|
  }

  function CustomersOf(inst: Instance, route: seq<nat>): (s: seq<nat>)
    ensures forall i | 0 <= i < |s| :: IsCustomer(inst, s[i])
  {
    if route == [] then []
    else
      var before := CustomersOf(inst, route[..|route| - 1]);
      if IsCustomer(inst, route[|route| - 1]) then before + [route[|route| - 1]] else before
  }

  function TotalDemand(inst: Instance, nodes: seq<nat>): real
    requires Known(inst, nodes)
  {
    if nodes == [] then 0.0
    else TotalDemand(inst, nodes[..|nodes| - 1]) + inst.nodes[nodes[|nodes| - 1]].demand
  }

  /** What is wrong with the shape and the load of a route of known nodes. */
  function ShapeViolations(inst: Instance, eps: real, route: seq<nat>): seq<Violation>
    requires Known(inst, route)
  {
    (if EndsAtDepot(inst, route) then [] else [BadEnds])
    + (if |route| >= 2 && inst.depot in route[1..|route| - 1] then [InteriorDepot] else [])
    + (if TotalDemand(inst, CustomersOf(inst, route)) > inst.vehicle.load + eps then [Overload] else [])
  }

  predicate EndsAtDepot(inst: Instance, route: seq<nat>) {
    |route| >= 2 && route[0] == inst.depot && route[|route| - 1] == inst.depot
  }

  function Begin(inst: Instance): Drive
    requires inst.depot < |inst.nodes|
  {
    Drive(Max(0.0, inst.nodes[inst.depot].ready), inst.vehicle.battery, 0.0, 0.0, 0.0, 0.0, [])
  }

  function DriveLeg(inst: Instance, eps: real, d: Drive, origin: nat, dest: nat, leg: nat): Drive
    requires dest < |inst.nodes| && inst.vehicle.velocity != 0.0
  {
    var node := inst.nodes[dest];
    var battery := d.battery - Energy(inst, origin, dest);
    var depleted := if battery < -eps then [BatteryDepleted(leg)] else [];
    var arrival := Max(d.time + Travel(inst, origin, dest), node.ready);
    var late := if arrival > node.due + eps then [LateArrival(leg)] else [];
    var moved := Drive(arrival, battery, d.distance + inst.dist(origin, dest), d.energy + Energy(inst, origin, dest),
                       d.charged, d.chargeTime, d.violations + depleted + late);
    match node.kind
    case Depot => moved
    case Customer => moved.(time := arrival + node.service)
    case Station =>
      var charge := Max(0.0, inst.vehicle.battery - battery);
      moved.(time := arrival + charge * inst.vehicle.refuelRate, battery := inst.vehicle.battery,
             charged := d.charged + charge, chargeTime := d.chargeTime + charge * inst.vehicle.refuelRate)
  }

  /** A leg never turns the clock back before service, fills up at stations, and adds one violation for each
      check that fails. */
  lemma LegEffect(inst: Instance, eps: real, d: Drive, origin: nat, dest: nat, leg: nat)
    requires WellFormed(inst) && dest < |inst.nodes|
    ensures var d', node := DriveLeg(inst, eps, d, origin, dest, leg), inst.nodes[dest];
      && (node.service >= 0.0 || !node.kind.Customer? ==> d'.time >= d.time && d'.time >= node.ready)
      && (node.kind.Station? ==> d'.battery == inst.vehicle.battery)
      && (!node.kind.Station? ==> d'.battery == d.battery - Energy(inst, origin, dest))
      && (node.kind.Station? ==> d'.time >= Max(d.time + Travel(inst, origin, dest), node.ready))
      && (!node.kind.Station? ==> d'.time == Max(d.time + Travel(inst, origin, dest), node.ready)
                                             + if node.kind.Customer? then node.service else 0.0)
      && |d'.violations| == |d.violations|
           + (if d.battery - Energy(inst, origin, dest) < -eps then 1 else 0)
           + (if Max(d.time + Travel(inst, origin, dest), node.ready) > node.due + eps then 1 else 0)
  {
    LegNonNegative(inst, origin, dest);
    var charge := Max(0.0, inst.vehicle.battery - (d.battery - Energy(inst, origin, dest)));
    MulMono(0.0, charge, inst.vehicle.refuelRate);
  }

  /** The drive along a whole route. */
  function DriveOf(inst: Instance, eps: real, route: seq<nat>): Drive
    requires inst.depot < |inst.nodes| && inst.vehicle.velocity != 0.0 && Known(inst, route)
  {
    var n := |route|;
    if n <= 1 then Begin(inst)
    else DriveLeg(inst, eps, DriveOf(inst, eps, route[..n - 1]), route[n - 2], route[n - 1], n - 1)
  }

  function ReportOf(inst: Instance, eps: real, route: seq<nat>): Report
    requires inst.depot < |inst.nodes| && inst.vehicle.velocity != 0.0
  {
    if !Known(inst, route) then
      Report(0.0, 0.0, 0.0, 0.0, 0.0, (if EndsAtDepot(inst, route) then [] else [BadEnds]) + [UnknownNodes])
    else
      var d := DriveOf(inst, eps, route);
      Report(d.distance, d.time, d.energy, d.charged, d.chargeTime, ShapeViolations(inst, eps, route) + d.violations)
  }

  ghost predicate Accepted(inst: Instance, eps: real, route: seq<nat>)
    requires inst.depot < |inst.nodes| && inst.vehicle.velocity != 0.0
  {
    ReportOf(inst, eps, route).violations == []
  }

  lemma DriveStep(inst: Instance, eps: real, route: seq<nat>, leg: nat)
    requires inst.depot < |inst.nodes| && inst.vehicle.velocity != 0.0 && Known(inst, route) && 1 <= leg < |route|
    ensures DriveOf(inst, eps, route[..leg + 1])
      == DriveLeg(inst, eps, DriveOf(inst, eps, route[..leg]), route[leg - 1], route[leg], leg)
  {
    assert route[..leg + 1][..leg] == route[..leg];
  }

  // ---- what each violation means ---------------------------------------------------------------------------

  /** Charge left on arrival at position `k`, before any recharge there. */
  function ChargeOn(inst: Instance, eps: real, route: seq<nat>, k: nat): real
    requires inst.depot < |inst.nodes| && inst.vehicle.velocity != 0.0 && Known(inst, route) && 1 <= k < |route|
  {
    DriveOf(inst, eps, route[..k]).battery - Energy(inst, route[k - 1], route[k])
  }

  /** When service at position `k` begins. */
  function ArrivalOn(inst: Instance, eps: real, route: seq<nat>, k: nat): real
    requires inst.depot < |inst.nodes| && inst.vehicle.velocity != 0.0 && Known(inst, route) && 1 <= k < |route|
  {
    Max(DriveOf(inst, eps, route[..k]).time + Travel(inst, route[k - 1], route[k]), inst.nodes[route[k]].ready)
  }

  /** What it takes for a violation to be reported. */
  ghost predicate Breaks(inst: Instance, eps: real, route: seq<nat>, v: Violation)
    requires inst.depot < |inst.nodes| && inst.vehicle.velocity != 0.0
  {
    match v
    case BadEnds => |route| < 2 || route[0] != inst.depot || route[|route| - 1] != inst.depot
    case UnknownNodes => exists i | 0 <= i < |route| :: route[i] >= |inst.nodes|
    case InteriorDepot => Known(inst, route) && exists i :: 0 < i < |route| - 1 && route[i] == inst.depot
    case Overload => Known(inst, route) && TotalDemand(inst, CustomersOf(inst, route)) > inst.vehicle.load + eps
    case BatteryDepleted(k) => Known(inst, route) && 1 <= k < |route| && ChargeOn(inst, eps, route, k) < -eps
    case LateArrival(k) => Known(inst, route) && 1 <= k < |route| && ArrivalOn(inst, eps, route, k) > inst.nodes[route[k]].due + eps
  }

  lemma LegViolations(inst: Instance, eps: real, d: Drive, origin: nat, dest: nat, leg: nat, v: Violation)
    requires dest < |inst.nodes| && inst.vehicle.velocity != 0.0
    ensures v in DriveLeg(inst, eps, d, origin, dest, leg).violations <==>
      || v in d.violations
      || (v == BatteryDepleted(leg) && d.battery - Energy(inst, origin, dest) < -eps)
      || (v == LateArrival(leg) && Max(d.time + Travel(inst, origin, dest), inst.nodes[dest].ready) > inst.nodes[dest].due + eps)
  {
  }

  lemma {:induction false} DriveLists(inst: Instance, eps: real, route: seq<nat>, v: Violation)
    requires inst.depot < |inst.nodes| && inst.vehicle.velocity != 0.0 && Known(inst, route)
    ensures v in DriveOf(inst, eps, route).violations <==> (v.BatteryDepleted? || v.LateArrival?) && Breaks(inst, eps, route, v)
  {
    hide DriveLeg, Energy, Travel, Max;
    var n := |route|;
    if n > 1 {
      var front := route[..n - 1];
      DriveLists(inst, eps, front, v);
      LegViolations(inst, eps, DriveOf(inst, eps, front), route[n - 2], route[n - 1], n - 1, v);
      assert forall k | 1 <= k < n - 1 :: front[..k] == route[..k];
    }
  }

  /** The report lists a violation exactly when there is one of that kind, at that leg. */
  lemma ReportLists(inst: Instance, eps: real, route: seq<nat>, v: Violation)
    requires inst.depot < |inst.nodes| && inst.vehicle.velocity != 0.0
    ensures v in ReportOf(inst, eps, route).violations <==>
      Breaks(inst, eps, route, v)
  {
    hide DriveOf, TotalDemand, CustomersOf;
    if Known(inst, route) {
      DriveLists(inst, eps, route, v);
      if |route| >= 2 {
        assert forall i | 0 < i < |route| - 1 :: route[1..|route| - 1][i - 1] == route[i];
      }
    }
  }

  lemma ShortDrive(inst: Instance, eps: real, route: seq<nat>)
    requires inst.depot < |inst.nodes| && inst.vehicle.velocity != 0.0 && Known(inst, route) && |route| <= 1
    ensures DriveOf(inst, eps, route) == Begin(inst)
  {
  }

  /** The validator's loop over the legs. */
  method DriveRoute(inst: Instance, eps: real, route: seq<nat>) returns (d: Drive)
    requires inst.depot < |inst.nodes| && inst.vehicle.velocity != 0.0 && Known(inst, route)
    ensures d == DriveOf(inst, eps, route)
  {
    hide Energy, Travel, DriveOf;
    if |route| <= 1 {
      ShortDrive(inst, eps, route);
      assert |route| == 1 ==> route[..1] == route;
    } else { ShortDrive(inst, eps, route[..1]); }
    var battery := inst.vehicle.battery;
    var time := Max(0.0, inst.nodes[inst.depot].ready);
    var distance, energy, charged, chargeTime := 0.0, 0.0, 0.0, 0.0;
    var violations: seq<Violation> := [];
    var leg := 1;
    while leg < |route|
      invariant 1 <= leg && (leg <= |route| || leg == 1)
      invariant Drive(time, battery, distance, energy, charged, chargeTime, violations)
        == DriveOf(inst, eps, if leg <= |route| then route[..leg] else route)
    {
      DriveStep(inst, eps, route, leg);
      var origin, dest := route[leg - 1], route[leg];
      var node := inst.nodes[dest];
      distance := distance + inst.dist(origin, dest);
      var legEnergy := Energy(inst, origin, dest);
      energy := energy + legEnergy;
      battery := battery - legEnergy;
      time := time + Travel(inst, origin, dest);
      if battery < -eps {
        violations := violations + [BatteryDepleted(leg)];
      }
      time := Max(time, node.ready);
      if time > node.due + eps {
        violations := violations + [LateArrival(leg)];
      }
      if node.kind.Customer? {
        time := time + node.service;
      } else if node.kind.Station? {
        var recharge := Max(0.0, inst.vehicle.battery - battery);
        var rechargeTime := recharge * inst.vehicle.refuelRate;
        charged := charged + recharge;
        chargeTime := chargeTime + rechargeTime;
        time := time + rechargeTime;
        battery := inst.vehicle.battery;
      }
      leg := leg + 1;
    }
    assert leg <= |route| ==> route[..leg] == route;
    d := Drive(time, battery, distance, energy, charged, chargeTime, violations);
  }

  method ValidateRoute(inst: Instance, eps: real, route: seq<nat>) returns (report: Report)
    requires inst.depot < |inst.nodes| && inst.vehicle.velocity != 0.0
    ensures report == ReportOf(inst, eps, route)
  {
    hide DriveOf, TotalDemand, CustomersOf;
    var violations: seq<Violation> := [];
    if !EndsAtDepot(inst, route) {
      violations := violations + [BadEnds];
    }
    if exists i | 0 <= i < |route| :: route[i] >= |inst.nodes| {
      violations := violations + [UnknownNodes];
      return Report(0.0, 0.0, 0.0, 0.0, 0.0, violations);
    }
    if |route| >= 2 && inst.depot in route[1..|route| - 1] {
      violations := violations + [InteriorDepot];
    }
    if TotalDemand(inst, CustomersOf(inst, route)) > inst.vehicle.load + eps {
      violations := violations + [Overload];
    }
    var d := DriveRoute(inst, eps, route);
    return Report(d.distance, d.time, d.energy, d.charged, d.chargeTime, violations + d.violations);
  }
}
