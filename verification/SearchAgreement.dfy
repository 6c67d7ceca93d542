/** The search and the independent validator agree wherever the battery clamp takes no effect, and so at tolerance zero. */
module SearchAgreement {
  import opened EvrptwModel
  import opened ChargingSearch
  import opened ChargingExactness
  import opened RouteValidator

  datatype OrderFailure = NoFailure | Duplicates | NonCustomers | OverCapacity

  function ValidateOrder(inst: Instance, eps: real, order: seq<nat>): OrderFailure {
    if exists i, j | 0 <= i < j < |order| :: order[i] == order[j] then Duplicates
    else if exists i | 0 <= i < |order| :: !IsCustomer(inst, order[i]) then NonCustomers
    else if TotalDemand(inst, order) > inst.vehicle.load + eps then OverCapacity
    else NoFailure
  }

  /** A well-formed instance and an order that order validation lets through. */
  ghost predicate Admitted(p: Problem) {
    WellFormed(p.inst) && ValidateOrder(p.inst, p.eps, p.order) == NoFailure
  }

  lemma AdmittedIsValid(p: Problem)
    requires Admitted(p)
    ensures ValidProblem(p)
  {
  }

  /** A complete route the extension rule allows. */
  ghost predicate Pattern(p: Problem, path: seq<nat>)
    requires Runnable(p)
  {
    Walk(p, path).Some? && Complete(p, Walk(p, path).value)
  }

  // ---- from the search to the validator ----------------------------------------------------------------

  /** The validator's drive and the search's label after the same nodes. */
  ghost predicate Same(d: Drive, l: Label) {
    && d.time == l.time && d.battery == l.battery && d.distance == l.distance && d.energy == l.energy
    && d.charged == l.charged && d.chargeTime == l.chargeTime
  }

  /** What an unfinished or finished walk has served and where it stands. */
  ghost predicate Placed(p: Problem, path: seq<nat>, l: Label) {
    && path != [] && path[0] == p.inst.depot && path[|path| - 1] == l.node && l.node < |p.inst.nodes|
    && Known(p.inst, path)
    && l.progress <= |p.order| && CustomersOf(p.inst, path) == p.order[..l.progress]
    && 0.0 <= l.battery <= p.inst.vehicle.battery
  }

  /** Whatever the tolerance, the battery of a label stays between empty and full. */
  lemma BatteryInRange(p: Problem, l: Label, k: Key)
    requires ValidProblem(p) && k.1 < |p.inst.nodes| && 0.0 <= l.battery <= p.inst.vehicle.battery
    ensures var e := Extend(p, l, k.1, k.0); e.Some? ==> 0.0 <= e.value.battery <= p.inst.vehicle.battery
  {
    LegNonNegative(p.inst, l.node, k.1);
  }

  /** One feasible leg that the battery at hand can pay for: no violation, and the same clock, battery and totals. */
  lemma LegAgrees(p: Problem, d: Drive, l: Label, k: Key, leg: nat)
    requires ValidProblem(p) && p.eps >= 0.0 && Same(d, l) && k.1 < |p.inst.nodes|
    requires 0.0 <= l.battery <= p.inst.vehicle.battery && Extend(p, l, k.1, k.0).Some?
    requires Energy(p.inst, l.node, k.1) <= l.battery
    ensures var d', l' := DriveLeg(p.inst, p.eps, d, l.node, k.1, leg), Extend(p, l, k.1, k.0).value;
      Same(d', l') && d'.violations == d.violations
  {
    LegNonNegative(p.inst, l.node, k.1);
    assert d.violations + [] + [] == d.violations;
  }

  /** The clamp at zero never takes effect: every leg costs at most the battery at hand. */
  ghost predicate ClampFree(p: Problem, path: seq<nat>)
    requires Runnable(p)
  {
    forall n | 0 < n < |path| && Walk(p, path[..n]).Some? :: Energy(p.inst, path[n - 1], path[n]) <= Walk(p, path[..n]).value.battery
  }

  lemma ClampFreePrefix(p: Problem, path: seq<nat>, m: nat)
    requires Runnable(p) && ClampFree(p, path) && m <= |path|
    ensures ClampFree(p, path[..m])
  {
    hide Walk;
    forall n | 0 < n < m && Walk(p, path[..m][..n]).Some?
      ensures Energy(p.inst, path[..m][n - 1], path[..m][n]) <= Walk(p, path[..m][..n]).value.battery
    {
      assert path[..m][..n] == path[..n];
    }
  }

  lemma MovePlaced(p: Problem, path: seq<nat>, l: Label, dest: nat)
    requires ValidProblem(p) && Placed(p, path, l) && dest < |p.inst.nodes|
    requires Offered(p, l, (NextProgress(p, l, dest), dest))
    ensures var next, progress := path + [dest], NextProgress(p, l, dest);
      && progress <= |p.order| && CustomersOf(p.inst, next) == p.order[..progress] && Known(p.inst, next)
  {
    var next := path + [dest];
    assert next[..|next| - 1] == path;
    if l.progress < |p.order| {
      assert p.order[..l.progress + 1] == p.order[..l.progress] + [p.order[l.progress]];
    }
  }

  /** Where a walk stands, at every tolerance. */
  lemma {:induction false} WalkPlaced(p: Problem, path: seq<nat>)
    requires ValidProblem(p) && Walk(p, path).Some?
    ensures Placed(p, path, Walk(p, path).value)
  {
    hide Extend, Offered, Complete, Metric, CustomersOf;
    var n := |path|;
    if n == 1 {
      assert path == [p.inst.depot];
      StartPlaced(p);
    } else {
      var prefix, dest := path[..n - 1], path[n - 1];
      WalkPlaced(p, prefix);
      var l := Walk(p, prefix).value;
      var k := (NextProgress(p, l, dest), dest);
      assert path == prefix + [dest];
      MovePlaced(p, prefix, l, dest);
      ExtendShape(p, l, k);
      BatteryInRange(p, l, k);
    }
  }

  /** A walk on which the clamp takes no effect is driven without violation, with the same clock, battery and totals. */
  lemma {:induction false} WalkAgrees(p: Problem, path: seq<nat>)
    requires ValidProblem(p) && p.eps >= 0.0 && Walk(p, path).Some? && ClampFree(p, path)
    ensures Placed(p, path, Walk(p, path).value)
    ensures Same(DriveOf(p.inst, p.eps, path), Walk(p, path).value) && DriveOf(p.inst, p.eps, path).violations == []
  {
    hide Extend, DriveLeg, Offered, Complete, Metric, CustomersOf;
    WalkPlaced(p, path);
    var n := |path|;
    if n == 1 {
      assert path == [p.inst.depot];
      StartPlaced(p);
    } else {
      var prefix, dest := path[..n - 1], path[n - 1];
      ClampFreePrefix(p, path, n - 1);
      WalkAgrees(p, prefix);
      WalkPlaced(p, prefix);
      var l := Walk(p, prefix).value;
      assert path == prefix + [dest];
      ExtendShape(p, l, (NextProgress(p, l, dest), dest));
      LegAgrees(p, DriveOf(p.inst, p.eps, prefix), l, (NextProgress(p, l, dest), dest), n - 1);
    }
  }

  /** At tolerance zero the clamp never takes effect. */
  lemma NoClamp(p: Problem, path: seq<nat>)
    requires ValidProblem(p) && p.eps == 0.0 && Walk(p, path).Some?
    ensures ClampFree(p, path)
  {
    hide Walk, Metric;
    forall n | 0 < n < |path| && Walk(p, path[..n]).Some?
      ensures Energy(p.inst, path[n - 1], path[n]) <= Walk(p, path[..n]).value.battery
    {
      WalkOn(p, path, n + 1);
      WalkPlaced(p, path[..n]);
      assert path[..n + 1][..n] == path[..n];
      LastPaid(p, path[..n + 1]);
    }
  }

  lemma LastPaid(p: Problem, path: seq<nat>)
    requires ValidProblem(p) && p.eps == 0.0 && |path| > 1 && Walk(p, path).Some? && Walk(p, path[..|path| - 1]).Some?
    requires path[|path| - 2] == Walk(p, path[..|path| - 1]).value.node
    ensures Energy(p.inst, path[|path| - 2], path[|path| - 1]) <= Walk(p, path[..|path| - 1]).value.battery
  {
    hide Metric, Energy, Offered, Complete;
  }

  lemma {:induction false} WalkOn(p: Problem, path: seq<nat>, n: nat)
    requires Runnable(p) && Walk(p, path).Some? && 0 < n <= |path|
    ensures Walk(p, path[..n]).Some?
    decreases |path|
  {
    hide Extend, Offered, Complete;
    if n < |path| {
      WalkOn(p, path[..|path| - 1], n);
      assert path[..|path| - 1][..n] == path[..n];
    } else {
      assert path[..n] == path;
    }
  }

  lemma StartPlaced(p: Problem)
    requires ValidProblem(p)
    ensures Placed(p, [p.inst.depot], Initial(p)) && Same(DriveOf(p.inst, p.eps, [p.inst.depot]), Initial(p))
    ensures DriveOf(p.inst, p.eps, [p.inst.depot]).violations == []
  {
  }

  lemma ExtendShape(p: Problem, l: Label, k: Key)
    requires Runnable(p) && k.1 < |p.inst.nodes|
    ensures var e := Extend(p, l, k.1, k.0);
      e.Some? ==> KeyOf(e.value) == k && e.value.path == l.path + [k.1]
  {
  }

  /** Only the last node of a pattern is the depot again. */
  lemma {:induction false} InteriorFree(p: Problem, path: seq<nat>)
    requires ValidProblem(p) && Walk(p, path).Some?
    ensures forall i | 0 < i < |path| - 1 :: path[i] != p.inst.depot
    ensures |path| > 1 && path[|path| - 1] == p.inst.depot ==> Complete(p, Walk(p, path).value)
  {
    hide Extend, StationMoves, Stations, Metric;
    if |path| > 1 {
      var prefix, dest := path[..|path| - 1], path[|path| - 1];
      InteriorFree(p, prefix);
      WalkPlaced(p, prefix);
      ExtendShape(p, Walk(p, prefix).value, (NextProgress(p, Walk(p, prefix).value, dest), dest));
    }
  }

  /** At every tolerance, a pattern on which the clamp takes no effect passes the validator, with the same distance,
      energy, charge, charging time and finish, and serves the customers in the given order. */
  lemma PatternAccepted(p: Problem, path: seq<nat>)
    requires Admitted(p) && p.eps >= 0.0 && ValidProblem(p) && Pattern(p, path) && ClampFree(p, path)
    ensures var l, r := Walk(p, path).value, ReportOf(p.inst, p.eps, path);
      && Accepted(p.inst, p.eps, path) && CustomersOf(p.inst, path) == p.order
      && r.distance == l.distance && r.energy == l.energy && r.charged == l.charged
      && r.chargeTime == l.chargeTime && r.finish == l.time
  {
    WalkAgrees(p, path);
    InteriorFree(p, path);
    assert p.order[..|p.order|] == p.order;
  }

  // ---- from the validator to the search ----------------------------------------------------------------

  /** What the search checks and the validator does not: a station is left by its due date. */
  ghost predicate ChargedInTime(inst: Instance, eps: real, route: seq<nat>)
    requires inst.depot < |inst.nodes| && inst.vehicle.velocity != 0.0 && Known(inst, route)
  {
    forall m | 1 < m <= |route| && IsStation(inst, route[m - 1]) ::
      DriveOf(inst, eps, route[..m]).time <= inst.nodes[route[m - 1]].due + eps
  }

  /** What the validator grants only up to the tolerance: no leg costs more than the battery at hand. */
  ghost predicate Solvent(inst: Instance, eps: real, route: seq<nat>)
    requires inst.depot < |inst.nodes| && inst.vehicle.velocity != 0.0 && Known(inst, route)
  {
    forall m | 0 < m < |route| :: PaysFor(inst, eps, route, m)
  }

  predicate PaysFor(inst: Instance, eps: real, route: seq<nat>, m: nat)
    requires inst.depot < |inst.nodes| && inst.vehicle.velocity != 0.0 && Known(inst, route) && 0 < m < |route|
  {
    Energy(inst, route[m - 1], route[m]) <= DriveOf(inst, eps, route[..m]).battery
  }

  /** At tolerance zero the validator grants nothing. */
  lemma ZeroIsSolvent(inst: Instance, route: seq<nat>)
    requires WellFormed(inst) && Known(inst, route) && DriveOf(inst, 0.0, route).violations == []
    ensures Solvent(inst, 0.0, route)
  {
    forall m | 0 < m < |route| ensures PaysFor(inst, 0.0, route, m) {
      CleanBefore(inst, 0.0, route, m + 1);
      DriveStep(inst, 0.0, route, m);
      LegEffect(inst, 0.0, DriveOf(inst, 0.0, route[..m]), route[m - 1], route[m], m);
    }
  }

  /** Violations are never taken back. */
  lemma {:induction false} CleanBefore(inst: Instance, eps: real, route: seq<nat>, m: nat)
    requires WellFormed(inst) && Known(inst, route) && DriveOf(inst, eps, route).violations == [] && m <= |route|
    ensures DriveOf(inst, eps, route[..m]).violations == []
    decreases |route|
  {
    hide DriveLeg;
    var n := |route|;
    if m < n && n > 1 {
      LegEffect(inst, eps, DriveOf(inst, eps, route[..n - 1]), route[n - 2], route[n - 1], n - 1);
      CleanBefore(inst, eps, route[..n - 1], m);
      assert route[..n - 1][..m] == route[..m];
    } else {
      ShortDriveIsClean(inst, eps, route, m);
    }
  }

  lemma ShortDriveIsClean(inst: Instance, eps: real, route: seq<nat>, m: nat)
    requires WellFormed(inst) && Known(inst, route) && m <= |route| && (m == |route| || |route| <= 1)
    requires DriveOf(inst, eps, route).violations == []
    ensures DriveOf(inst, eps, route[..m]).violations == []
  {
    assert m == |route| ==> route[..m] == route;
  }

  /** A walk that stands where the route prefix stands, with the same clock, battery and distance. */
  ghost predicate Mirrors(p: Problem, r: seq<nat>, q: seq<nat>)
    requires Runnable(p) && Known(p.inst, r) && r != []
  {
    && Walk(p, q).Some?
    && var l := Walk(p, q).value; var d := DriveOf(p.inst, p.eps, r);
    && l.node == r[|r| - 1] && l.progress <= |p.order| && CustomersOf(p.inst, r) == p.order[..l.progress]
    && d.time == l.time && d.battery == l.battery && d.distance == l.distance && (|q| > 1 <==> |r| > 1)
    && ClampFree(p, q)
  }

  ghost predicate Clean(p: Problem, r: seq<nat>)
    requires Runnable(p)
  {
    && Known(p.inst, r) && r != [] && r[0] == p.inst.depot && (forall i | 0 < i < |r| - 1 :: r[i] != p.inst.depot)
    && DriveOf(p.inst, p.eps, r).violations == [] && CustomersOf(p.inst, r) <= p.order
    && ChargedInTime(p.inst, p.eps, r) && Solvent(p.inst, p.eps, r)
  }

  lemma CleanPrefix(p: Problem, r: seq<nat>)
    requires ValidProblem(p) && Clean(p, r) && |r| > 1
    ensures Clean(p, r[..|r| - 1])
  {
    hide CustomersOf, DriveOf, Solvent;
    var s := r[..|r| - 1];
    assert forall m | 1 < m <= |s| :: s[..m] == r[..m];
    SolventPrefix(p.inst, p.eps, r);
    CleanBefore(p.inst, p.eps, r, |r| - 1);
    CustomersBefore(p.inst, r);
  }

  lemma CustomersBefore(inst: Instance, r: seq<nat>)
    requires r != []
    ensures CustomersOf(inst, r[..|r| - 1]) <= CustomersOf(inst, r)
  {
  }

  lemma SolventPrefix(inst: Instance, eps: real, r: seq<nat>)
    requires WellFormed(inst) && Known(inst, r) && r != [] && Solvent(inst, eps, r)
    ensures Solvent(inst, eps, r[..|r| - 1])
  {
    hide DriveOf;
    var s := r[..|r| - 1];
    forall m | 0 < m < |s| ensures PaysFor(inst, eps, s, m) {
      assert PaysFor(inst, eps, r, m) && s[..m] == r[..m];
    }
  }

  /** Standing at a station: full, and not before its ready time. */
  lemma AtStation(p: Problem, r: seq<nat>)
    requires ValidProblem(p) && Clean(p, r) && IsStation(p.inst, r[|r| - 1])
    ensures DriveOf(p.inst, p.eps, r).battery == p.inst.vehicle.battery
    ensures DriveOf(p.inst, p.eps, r).time >= p.inst.nodes[r[|r| - 1]].ready
  {
    hide DriveLeg;
    var n := |r|;
    assert n > 1;
    LegEffect(p.inst, p.eps, DriveOf(p.inst, p.eps, r[..n - 1]), r[n - 2], r[n - 1], n - 1);
  }

  /** Calling again at the station one stands at changes nothing but the length of the route. */
  lemma StutterMirrors(p: Problem, r: seq<nat>, q: seq<nat>)
    requires ValidProblem(p) && p.eps >= 0.0 && Clean(p, r) && |r| > 1 && Mirrors(p, r[..|r| - 1], q)
    requires IsStation(p.inst, r[|r| - 1]) && r[|r| - 1] == r[|r| - 2]
    ensures Mirrors(p, r, q)
  {
    hide Walk, Metric, DriveLeg, CustomersOf, ChargedInTime, ClampFree;
    var n := |r|;
    CleanPrefix(p, r);
    CleanShape(p, r);
    AtStation(p, r[..n - 1]);
    StutterDrive(p.inst, p.eps, DriveOf(p.inst, p.eps, r[..n - 1]), r[n - 1], n - 1);
    NoNewCustomer(p.inst, r);
  }

  lemma NoNewCustomer(inst: Instance, r: seq<nat>)
    requires r != [] && IsStation(inst, r[|r| - 1])
    ensures CustomersOf(inst, r) == CustomersOf(inst, r[..|r| - 1])
  {
  }

  lemma StutterDrive(inst: Instance, eps: real, d: Drive, v: nat, leg: nat)
    requires WellFormed(inst) && IsStation(inst, v) && d.battery == inst.vehicle.battery && d.time >= inst.nodes[v].ready
    ensures var d' := DriveLeg(inst, eps, d, v, v, leg);
      d'.time == d.time && d'.battery == d.battery && d'.distance == d.distance
  {
    assert inst.dist(v, v) == 0.0;
    assert Energy(inst, v, v) == 0.0 && Travel(inst, v, v) == 0.0;
  }

  /** A leg without violation that leaves its station in time is a feasible extension. */
  lemma LegExtends(p: Problem, d: Drive, l: Label, k: Key, leg: nat)
    requires ValidProblem(p) && p.eps >= 0.0 && k.1 < |p.inst.nodes| && Energy(p.inst, l.node, k.1) <= l.battery
    requires d.time == l.time && d.battery == l.battery && d.distance == l.distance
    requires l.battery <= p.inst.vehicle.battery
    requires d.violations == [] && DriveLeg(p.inst, p.eps, d, l.node, k.1, leg).violations == []
    requires IsStation(p.inst, k.1) ==> DriveLeg(p.inst, p.eps, d, l.node, k.1, leg).time <= p.inst.nodes[k.1].due + p.eps
    ensures var e, d' := Extend(p, l, k.1, k.0), DriveLeg(p.inst, p.eps, d, l.node, k.1, leg);
      e.Some? && d'.time == e.value.time && d'.battery == e.value.battery && d'.distance == e.value.distance
  {
    LegNonNegative(p.inst, l.node, k.1);
    LegEffect(p.inst, p.eps, d, l.node, k.1, leg);
  }

  lemma StepMirrors(p: Problem, r: seq<nat>, q: seq<nat>)
    requires ValidProblem(p) && p.eps >= 0.0 && Clean(p, r) && |r| > 1 && Mirrors(p, r[..|r| - 1], q)
    requires r[|r| - 1] == p.inst.depot ==> CustomersOf(p.inst, r) == p.order
    requires !(IsStation(p.inst, r[|r| - 1]) && r[|r| - 1] == r[|r| - 2])
    ensures Mirrors(p, r, q + [r[|r| - 1]])
  {
    hide DriveLeg, Extend, Successors, IsTerminal, Walk, Offered, Complete, Clean, Metric, ClampFree;
    var n := |r|;
    var s, dest, l := r[..n - 1], r[n - 1], Walk(p, q).value;
    var k := (NextProgress(p, l, dest), dest);
    CleanShape(p, r);
    BatteryBound(p, q);
    LegExtends(p, DriveOf(p.inst, p.eps, s), l, k, n - 1);
    NextServed(p, r, l);
    ExtendShape(p, l, k);
    NotBack(p, r, q);
    ExtensionIsWalk(p, l, k);
    ClampFreeOn(p, q, dest);
  }

  lemma ClampFreeOn(p: Problem, path: seq<nat>, dest: nat)
    requires Runnable(p) && Walk(p, path).Some? && ClampFree(p, path)
    requires Energy(p.inst, path[|path| - 1], dest) <= Walk(p, path).value.battery
    ensures ClampFree(p, path + [dest])
  {
    hide Walk, Energy;
    var next := path + [dest];
    assert next[..|path|] == path;
    forall n | 0 < n < |next| && Walk(p, next[..n]).Some? ensures Energy(p.inst, next[n - 1], next[n]) <= Walk(p, next[..n]).value.battery {
      if n < |path| { assert next[..n] == path[..n] && next[n] == path[n] && next[n - 1] == path[n - 1]; }
    }
  }

  lemma CleanShape(p: Problem, r: seq<nat>)
    requires ValidProblem(p) && Clean(p, r) && |r| > 1
    ensures Known(p.inst, r) && Known(p.inst, r[..|r| - 1])
    ensures DriveOf(p.inst, p.eps, r).violations == [] && DriveOf(p.inst, p.eps, r[..|r| - 1]).violations == []
    ensures IsStation(p.inst, r[|r| - 1]) ==> DriveOf(p.inst, p.eps, r).time <= p.inst.nodes[r[|r| - 1]].due + p.eps
    ensures Energy(p.inst, r[|r| - 2], r[|r| - 1]) <= DriveOf(p.inst, p.eps, r[..|r| - 1]).battery
  {
    CleanPrefix(p, r);
    assert r[..|r|] == r && PaysFor(p.inst, p.eps, r, |r| - 1);
  }

  lemma BatteryBound(p: Problem, q: seq<nat>)
    requires ValidProblem(p) && Walk(p, q).Some?
    ensures Walk(p, q).value.battery <= p.inst.vehicle.battery && q[|q| - 1] == Walk(p, q).value.node
  {
    WalkPlaced(p, q);
  }

  lemma NotBack(p: Problem, r: seq<nat>, q: seq<nat>)
    requires ValidProblem(p) && Clean(p, r) && |r| > 1 && Mirrors(p, r[..|r| - 1], q)
    ensures !Complete(p, Walk(p, q).value)
  {
    if |r| > 2 { assert r[|r| - 2] != p.inst.depot; }
  }

  lemma NextServed(p: Problem, r: seq<nat>, l: Label)
    requires ValidProblem(p) && Clean(p, r) && |r| > 1 && l.node == r[|r| - 2] && l.progress <= |p.order|
    requires CustomersOf(p.inst, r[..|r| - 1]) == p.order[..l.progress]
    requires r[|r| - 1] == p.inst.depot ==> CustomersOf(p.inst, r) == p.order
    requires !(IsStation(p.inst, r[|r| - 1]) && r[|r| - 1] == r[|r| - 2])
    ensures var dest := r[|r| - 1]; var k := (NextProgress(p, l, dest), dest);
      Offered(p, l, k) && k.0 <= |p.order| && CustomersOf(p.inst, r) == p.order[..k.0]
  {
    var dest := r[|r| - 1];
    if IsCustomer(p.inst, dest) {
      assert CustomersOf(p.inst, r) == p.order[..l.progress] + [dest];
      assert p.order[l.progress] == dest;
    } else if IsStation(p.inst, dest) {
      assert dest in Stations(p.inst);
      assert (l.progress, dest) in StationMoves(Stations(p.inst), l);
    } else {
      assert dest == p.inst.depot;
      assert |p.order[..l.progress]| == |p.order|;
    }
  }

  lemma {:induction false} CleanMirrored(p: Problem, r: seq<nat>) returns (q: seq<nat>)
    requires ValidProblem(p) && p.eps >= 0.0 && Clean(p, r)
    requires |r| > 1 && r[|r| - 1] == p.inst.depot ==> CustomersOf(p.inst, r) == p.order
    ensures Mirrors(p, r, q)
  {
    var n := |r|;
    if n == 1 {
      q := [p.inst.depot];
      assert r == q;
    } else {
      CleanPrefix(p, r);
      if n - 1 > 1 { assert r[n - 2] != p.inst.depot; }
      q := CleanMirrored(p, r[..n - 1]);
      if IsStation(p.inst, r[n - 1]) && r[n - 1] == r[n - 2] {
        StutterMirrors(p, r, q);
      } else {
        StepMirrors(p, r, q);
        q := q + [r[n - 1]];
      }
    }
  }

  /** An accepted route for the order that leaves its stations in time and overdraws no battery. */
  ghost predicate InTimeRoute(p: Problem, r: seq<nat>)
    requires Runnable(p)
  {
    && Known(p.inst, r) && Accepted(p.inst, p.eps, r) && CustomersOf(p.inst, r) == p.order
    && ChargedInTime(p.inst, p.eps, r) && Solvent(p.inst, p.eps, r)
  }

  /** A pattern of this distance on which the clamp takes no effect. */
  ghost predicate PlainPattern(p: Problem, q: seq<nat>, distance: real)
    requires Runnable(p)
  {
    Pattern(p, q) && ClampFree(p, q) && Walk(p, q).value.distance == distance
  }

  /** At every tolerance, the patterns without clamping are exactly the accepted routes for the order whose stations are
      left in time and whose battery is never overdrawn: the two sets have the same distances. */
  lemma PatternsAreAcceptedRoutes(p: Problem, distance: real)
    requires Admitted(p) && p.eps >= 0.0 && ValidProblem(p)
    ensures (exists q :: PlainPattern(p, q, distance))
      <==> (exists r :: InTimeRoute(p, r) && ReportOf(p.inst, p.eps, r).distance == distance)
  {
    hide Walk, Accepted, ClampFree, Solvent, ChargedInTime;
    if q :| PlainPattern(p, q, distance) {
      PatternAccepted(p, q);
      PatternInTime(p, q);
      WalkAgrees(p, q);
      assert InTimeRoute(p, q);
    }
    if r :| InTimeRoute(p, r) && ReportOf(p.inst, p.eps, r).distance == distance {
      var q := AcceptedMirrored(p, r);
      assert PlainPattern(p, q, distance);
    }
  }

  lemma AcceptedMirrored(p: Problem, r: seq<nat>) returns (q: seq<nat>)
    requires ValidProblem(p) && p.eps >= 0.0 && InTimeRoute(p, r)
    ensures Pattern(p, q) && ClampFree(p, q) && Walk(p, q).value.distance == ReportOf(p.inst, p.eps, r).distance
  {
    assert EndsAtDepot(p.inst, r) && p.inst.depot !in r[1..|r| - 1];
    forall i | 0 < i < |r| - 1 ensures r[i] != p.inst.depot { assert r[i] == r[1..|r| - 1][i - 1]; }
    q := CleanMirrored(p, r);
    WalkPlaced(p, q);
    assert |p.order[..Walk(p, q).value.progress]| == |p.order|;
  }

  lemma LastInTime(p: Problem, q: seq<nat>)
    requires ValidProblem(p) && Walk(p, q).Some? && |q| > 1
    ensures Walk(p, q[..|q| - 1]).Some?
    ensures IsStation(p.inst, q[|q| - 1]) ==> Walk(p, q).value.time <= p.inst.nodes[q[|q| - 1]].due + p.eps
  {
  }

  lemma {:induction false} PatternInTime(p: Problem, q: seq<nat>)
    requires ValidProblem(p) && p.eps >= 0.0 && Walk(p, q).Some? && ClampFree(p, q)
    ensures Known(p.inst, q) && ChargedInTime(p.inst, p.eps, q) && Solvent(p.inst, p.eps, q)
  {
    hide DriveOf, Walk;
    WalkAgrees(p, q);
    if |q| > 1 {
      var s := q[..|q| - 1];
      LastInTime(p, q);
      ClampFreePrefix(p, q, |q| - 1);
      PatternInTime(p, s);
      WalkAgrees(p, s);
      forall m | 1 < m <= |q| && IsStation(p.inst, q[m - 1])
        ensures DriveOf(p.inst, p.eps, q[..m]).time <= p.inst.nodes[q[m - 1]].due + p.eps
      {
        if m < |q| { assert q[..m] == s[..m]; } else { assert q[..m] == q; }
      }
      forall m | 0 < m < |q| ensures PaysFor(p.inst, p.eps, q, m) {
        if m < |s| { assert PaysFor(p.inst, p.eps, s, m) && q[..m] == s[..m]; }
      }
    }
  }

  // ---- optimal among all accepted routes -----------------------------------------------------------------

  /** Service takes time, and no station closes before the depot does. */
  ghost predicate StationsOutlastDepot(inst: Instance)
    requires inst.depot < |inst.nodes|
  {
    && (forall i | 0 <= i < |inst.nodes| :: inst.nodes[i].service >= 0.0)
    && (forall i | 0 <= i < |inst.nodes| && inst.nodes[i].kind.Station? :: inst.nodes[i].due >= inst.nodes[inst.depot].due)
  }

  lemma {:induction false} DriveForward(p: Problem, r: seq<nat>, m: nat)
    requires ValidProblem(p) && StationsOutlastDepot(p.inst) && Known(p.inst, r) && 1 <= m <= |r|
    ensures DriveOf(p.inst, p.eps, r[..m]).time <= DriveOf(p.inst, p.eps, r).time
  {
    hide DriveLeg;
    var n := |r|;
    if m < n {
      var s := r[..n - 1];
      DriveForward(p, s, m);
      assert s[..m] == r[..m];
      LegEffect(p.inst, p.eps, DriveOf(p.inst, p.eps, s), r[n - 2], r[n - 1], n - 1);
    } else {
      assert r[..m] == r;
    }
  }

  lemma OutlastingIsInTime(p: Problem, r: seq<nat>)
    requires ValidProblem(p) && StationsOutlastDepot(p.inst)
    requires Known(p.inst, r) && Accepted(p.inst, p.eps, r)
    ensures ChargedInTime(p.inst, p.eps, r)
  {
    var n := |r|;
    assert EndsAtDepot(p.inst, r);
    LegEffect(p.inst, p.eps, DriveOf(p.inst, p.eps, r[..n - 1]), r[n - 2], r[n - 1], n - 1);
    forall m | 1 < m <= n && IsStation(p.inst, r[m - 1])
      ensures DriveOf(p.inst, p.eps, r[..m]).time <= p.inst.nodes[r[m - 1]].due + p.eps
    {
      DriveForward(p, r, m);
    }
  }
}
