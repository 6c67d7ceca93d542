/** What the screen means, in terms of the validator alone: an order passes exactly if the validator accepts it on relaxed
    problems, one without energy use, one per leg and one per customer. */
module ScreenMeaning {
  import opened EvrptwModel
  import opened RouteValidator
  import opened SafeScreen
  import opened ScreenSoundness

  /** The instance with a vehicle that uses no energy. */
  function Effortless(inst: Instance): Instance { inst.(vehicle := inst.vehicle.(consumption := 0.0)) }

  /** The validator sees the battery of no leg depleted. */
  ghost predicate Drives(inst: Instance, eps: real, r: seq<nat>)
    requires inst.depot < |inst.nodes| && inst.vehicle.velocity != 0.0 && Known(inst, r)
  {
    forall k :: BatteryDepleted(k) !in DriveOf(inst, eps, r).violations
  }

  /** With a full battery at `a`, the validator lets the vehicle come to `b`, with stops at stations only. */
  ghost predicate Linked(inst: Instance, eps: real, a: nat, b: nat)
    requires inst.depot < |inst.nodes| && inst.vehicle.velocity != 0.0 && a < |inst.nodes| && b < |inst.nodes|
  {
    exists stops: seq<nat> :: AllStations(inst, stops) && Drives(inst, eps, [a] + stops + [b])
  }

  predicate AllStations(inst: Instance, stops: seq<nat>) { forall i | 0 <= i < |stops| :: IsStation(inst, stops[i]) }

  /** The validator lets the vehicle serve the customer between two places where it recharges. */
  ghost predicate Served(inst: Instance, eps: real, c: nat)
    requires inst.depot < |inst.nodes| && inst.vehicle.velocity != 0.0 && c < |inst.nodes|
  {
    exists u, w :: Recharge(inst, u) && Recharge(inst, w) && Drives(inst, eps, [u, c, w])
  }

  // ---- time ------------------------------------------------------------------------------------------------

  lemma EffortlessChain(inst: Instance, chain: seq<nat>)
    requires IsChain(inst, chain)
    ensures IsChain(Effortless(inst), chain)
    ensures forall a, b :: Energy(Effortless(inst), a, b) == 0.0
    ensures forall a, b :: Travel(Effortless(inst), a, b) == Travel(inst, a, b)
  {
  }

  /** Without energy use the validator's clock shows the earliest departures. */
  lemma {:induction false} EffortlessDrive(inst: Instance, eps: real, chain: seq<nat>, k: nat)
    requires IsChain(inst, chain) && k < |chain|
    ensures var d := DriveOf(Effortless(inst), eps, chain[..k + 1]);
      d.time == Departure(inst, chain, k) && d.battery == inst.vehicle.battery
  {
    hide Metric, Energy, Travel, DriveLeg;
    EffortlessChain(inst, chain);
    if k == 0 {
      ChainEnds(inst, chain);
      ShortDrive(Effortless(inst), eps, chain[..1]);
    } else {
      EffortlessDrive(inst, eps, chain, k - 1);
      DriveStep(Effortless(inst), eps, chain, k);
      EffortlessLeg(inst, eps, chain, k, DriveOf(Effortless(inst), eps, chain[..k]));
    }
  }

  lemma ChainEnds(inst: Instance, chain: seq<nat>)
    requires IsChain(inst, chain)
    ensures |chain| > 2 && chain[0] == inst.depot == chain[|chain| - 1] && inst.nodes[inst.depot].kind.Depot?
    ensures forall k | 1 <= k < |chain| - 1 :: inst.nodes[chain[k]].kind.Customer?
  {
  }

  lemma EffortlessLeg(inst: Instance, eps: real, chain: seq<nat>, k: nat, d: Drive)
    requires IsChain(inst, chain) && 1 <= k < |chain| && d.time == Departure(inst, chain, k - 1) && d.battery == inst.vehicle.battery
    ensures var e := DriveLeg(Effortless(inst), eps, d, chain[k - 1], chain[k], k);
      e.time == Departure(inst, chain, k) && e.battery == inst.vehicle.battery
  {
    hide Metric, Energy, Travel;
    EffortlessChain(inst, chain);
    ChainEnds(inst, chain);
  }

  lemma EffortlessArrival(inst: Instance, eps: real, chain: seq<nat>, k: nat)
    requires IsChain(inst, chain) && 1 <= k < |chain|
    ensures ArrivalOn(Effortless(inst), eps, chain, k) == Earliest(inst, chain, k)
    ensures ChargeOn(Effortless(inst), eps, chain, k) == inst.vehicle.battery
  {
    hide Metric, Energy, Travel, DriveOf;
    EffortlessChain(inst, chain);
    EffortlessDrive(inst, eps, chain, k - 1);
  }

  /** An order that keeps its due dates on the way out keeps the latest arrivals as well. */
  lemma {:induction false} BackwardFollows(inst: Instance, eps: real, chain: seq<nat>, k: nat)
    requires IsChain(inst, chain) && DueDatesMet(inst, eps, chain, |chain|) && 1 <= k < |chain|
    ensures Latest(inst, chain, k) - Earliest(inst, chain, k) >= -eps
    decreases |chain| - k
  {
    hide Metric, Travel, Earliest, Departure, Latest, Service;
    LatestStep(inst, chain, k);
    if k < |chain| - 1 {
      BackwardFollows(inst, eps, chain, k + 1);
      EarliestNext(inst, chain, k);
    } else {
      ChainEnds(inst, chain);
    }
  }

  lemma EarliestNext(inst: Instance, chain: seq<nat>, k: nat)
    requires IsChain(inst, chain) && k + 1 < |chain|
    ensures Earliest(inst, chain, k + 1) >= Earliest(inst, chain, k) + Service(inst, chain[k]) + Travel(inst, chain[k], chain[k + 1])
  {
    hide Metric, Travel;
  }

  /** The time test is the validator's, for a vehicle that uses no energy. */
  lemma TimeMeans(inst: Instance, eps: real, chain: seq<nat>)
    requires IsChain(inst, chain) && eps >= 0.0
    ensures OnTime(inst, eps, chain) <==> DriveOf(Effortless(inst), eps, chain).violations == []
  {
    hide Metric, Travel, Energy, Earliest, Latest, DriveOf, ArrivalOn, ChargeOn;
    EffortlessChain(inst, chain);
    var d := DriveOf(Effortless(inst), eps, chain);
    forall v ensures v in d.violations <==>
      v.LateArrival? && 1 <= v.leg < |chain| && Earliest(inst, chain, v.leg) > inst.nodes[chain[v.leg]].due + eps
    {
      DriveLists(Effortless(inst), eps, chain, v);
      if v.LateArrival? || v.BatteryDepleted? {
        if 1 <= v.leg < |chain| { EffortlessArrival(inst, eps, chain, v.leg); }
      }
    }
    if DueDatesMet(inst, eps, chain, |chain|) {
      forall k | 1 <= k < |chain| ensures Latest(inst, chain, k) - Earliest(inst, chain, k) >= -eps { BackwardFollows(inst, eps, chain, k); }
      NoneListed(d.violations);
    } else {
      var k :| 1 <= k < |chain| && !(inst.nodes[chain[k]].due - Earliest(inst, chain, k) >= -eps);
      assert LateArrival(k) in d.violations;
    }
  }

  lemma NoneListed(s: seq<Violation>)
    ensures (forall v :: v !in s) ==> s == []
  {
    if s != [] { assert s[0] in s; }
  }

  // ---- load ------------------------------------------------------------------------------------------------

  lemma {:induction false} CustomersOnly(inst: Instance, order: seq<nat>)
    requires forall i | 0 <= i < |order| :: IsCustomer(inst, order[i])
    ensures CustomersOf(inst, order) == order
  {
    if order != [] {
      CustomersOnly(inst, order[..|order| - 1]);
      assert order == order[..|order| - 1] + [order[|order| - 1]];
    }
  }

  lemma {:induction false} DepotFirst(inst: Instance, order: seq<nat>)
    requires !IsCustomer(inst, inst.depot)
    ensures CustomersOf(inst, [inst.depot] + order) == CustomersOf(inst, order)
  {
    var r := [inst.depot] + order;
    if order == [] {
      assert r[..0] == [];
    } else {
      DepotFirst(inst, order[..|order| - 1]);
      assert r[..|r| - 1] == [inst.depot] + order[..|order| - 1];
    }
  }

  lemma ChainServes(inst: Instance, order: seq<nat>)
    requires WellFormed(inst) && CustomerOrder(inst, order)
    ensures CustomersOf(inst, Chain(inst, order)) == order
  {
    hide Metric;
    var r := [inst.depot] + order;
    CustomersOnly(inst, order);
    DepotFirst(inst, order);
    assert Chain(inst, order) == r + [inst.depot] && (r + [inst.depot])[..|r|] == r;
  }

  /** On an instance without energy use the order itself is accepted if and only if it keeps load and time. */
  lemma OrderAccepted(inst: Instance, eps: real, order: seq<nat>)
    requires WellFormed(inst) && CustomerOrder(inst, order) && eps >= 0.0
    ensures Known(inst, Chain(inst, order))
    ensures Accepted(Effortless(inst), eps, Chain(inst, order))
      <==> TotalDemand(inst, order) <= inst.vehicle.load + eps && OnTime(inst, eps, Chain(inst, order))
  {
    hide Metric, DriveOf, OnTime, TotalDemand, CustomersOf;
    var chain, free := Chain(inst, order), Effortless(inst);
    ChainFacts(inst, order);
    ChainServes(inst, order);
    SameCustomers(inst, chain);
    SameDemand(inst, order);
    TimeMeans(inst, eps, chain);
    ChainEnds(inst, chain);
    assert chain[1..|chain| - 1] == order;
  }

  lemma {:induction false} SameCustomers(inst: Instance, r: seq<nat>)
    ensures CustomersOf(Effortless(inst), r) == CustomersOf(inst, r)
  {
    if r != [] { SameCustomers(inst, r[..|r| - 1]); }
  }

  lemma {:induction false} SameDemand(inst: Instance, nodes: seq<nat>)
    requires Known(inst, nodes)
    ensures TotalDemand(Effortless(inst), nodes) == TotalDemand(inst, nodes)
  {
    if nodes != [] { SameDemand(inst, nodes[..|nodes| - 1]); }
  }

  // ---- energy ----------------------------------------------------------------------------------------------

  /** After every stop at a station the battery is full. */
  lemma {:induction false} FullAtStops(inst: Instance, eps: real, r: seq<nat>, k: nat)
    requires WellFormed(inst) && Known(inst, r) && 1 <= k <= |r| && forall i | 1 <= i < k :: IsStation(inst, r[i])
    ensures DriveOf(inst, eps, r[..k]).battery == inst.vehicle.battery
  {
    hide Metric, Energy, Travel;
    if k == 1 {
      ShortDrive(inst, eps, r[..1]);
    } else {
      DriveStep(inst, eps, r, k - 1);
    }
  }

  /** A way over stations is driven exactly if each hop is affordable on a full battery. */
  lemma HopsDriven(inst: Instance, eps: real, a: nat, stops: seq<nat>, b: nat)
    requires WellFormed(inst) && AllStations(inst, stops) && a < |inst.nodes| && b < |inst.nodes|
    ensures var r := [a] + stops + [b];
      Drives(inst, eps, r) <==> forall k | 1 <= k < |r| :: Affordable(inst, eps, r[k - 1], r[k])
  {
    hide Metric, Energy, DriveOf;
    var r := [a] + stops + [b];
    if Drives(inst, eps, r) {
      forall k | 1 <= k < |r| ensures Affordable(inst, eps, r[k - 1], r[k]) { HopDriven(inst, eps, r, k); }
    }
    if forall k | 1 <= k < |r| :: Affordable(inst, eps, r[k - 1], r[k]) {
      forall k: nat ensures BatteryDepleted(k) !in DriveOf(inst, eps, r).violations {
        if 1 <= k < |r| { HopDriven(inst, eps, r, k); } else { DriveLists(inst, eps, r, BatteryDepleted(k)); }
      }
    }
  }

  lemma HopDriven(inst: Instance, eps: real, r: seq<nat>, k: nat)
    requires WellFormed(inst) && Known(inst, r) && 1 <= k < |r| && forall i | 1 <= i < k :: IsStation(inst, r[i])
    ensures BatteryDepleted(k) in DriveOf(inst, eps, r).violations <==> !Affordable(inst, eps, r[k - 1], r[k])
  {
    hide Metric, Energy, DriveOf;
    FullAtStops(inst, eps, r, k);
    DriveLists(inst, eps, r, BatteryDepleted(k));
  }

  lemma LinkedMeans(inst: Instance, eps: real, a: nat, b: nat)
    requires WellFormed(inst) && a < |inst.nodes| && b < |inst.nodes| && a != b
    ensures EnergyReachable(inst, eps, a, b) <==> Linked(inst, eps, a, b)
  {
    hide Metric, Energy, Drives, Affordable;
    if EnergyReachable(inst, eps, a, b) {
      var v :| Reaches(inst, eps, a, v) && Affordable(inst, eps, v, b);
      var path :| Hops(inst, eps, a, path) && path[|path| - 1] == v;
      var stops := path[1..];
      var r := [a] + stops + [b];
      assert r == path + [b];
      HopsDriven(inst, eps, a, stops, b);
    }
    if Linked(inst, eps, a, b) {
      var stops: seq<nat> :| AllStations(inst, stops) && Drives(inst, eps, [a] + stops + [b]);
      HopsDriven(inst, eps, a, stops, b);
      var r, path := [a] + stops + [b], [a] + stops;
      forall i | 0 < i < |path| ensures IsStation(inst, path[i]) && Affordable(inst, eps, path[i - 1], path[i]) {
        assert r[i - 1] == path[i - 1] && r[i] == path[i];
      }
      assert Hops(inst, eps, a, path);
      assert Affordable(inst, eps, r[|r| - 2], r[|r| - 1]) && r[|r| - 2] == path[|path| - 1];
    }
  }

  lemma PairDriven(inst: Instance, eps: real, u: nat, c: nat, w: nat)
    requires WellFormed(inst) && Recharge(inst, u) && IsCustomer(inst, c) && Recharge(inst, w)
    ensures Drives(inst, eps, [u, c, w]) <==> Through(inst, u, c, w) <= inst.vehicle.battery + eps
  {
    hide Metric, Energy, Travel, DriveOf, Through;
    var r := [u, c, w];
    LegNonNegative(inst, c, w);
    ThroughIsEnergy(inst, u, c, w);
    assert r[..1] == [u] && r[..2] == [u, c];
    ShortDrive(inst, eps, [u]);
    DriveStep(inst, eps, r, 1);
    forall k: nat ensures BatteryDepleted(k) in DriveOf(inst, eps, r).violations <==> 1 <= k < 3 && ChargeOn(inst, eps, r, k) < -eps {
      DriveLists(inst, eps, r, BatteryDepleted(k));
    }
    assert ChargeOn(inst, eps, r, 1) == inst.vehicle.battery - Energy(inst, u, c);
    assert ChargeOn(inst, eps, r, 2) == inst.vehicle.battery - Energy(inst, u, c) - Energy(inst, c, w);
  }

  lemma ServedMeans(inst: Instance, eps: real, c: nat)
    requires WellFormed(inst) && IsCustomer(inst, c)
    ensures Bracketed(inst, eps, c) <==> Served(inst, eps, c)
  {
    hide Metric, Drives, Through;
    forall u, w | Recharge(inst, u) && Recharge(inst, w)
      ensures Drives(inst, eps, [u, c, w]) <==> Through(inst, u, c, w) <= inst.vehicle.battery + eps
    {
      PairDriven(inst, eps, u, c, w);
    }
  }

  // ---- the screen ------------------------------------------------------------------------------------------

  /** An order passes the screen if and only if the validator accepts it as it stands for a vehicle that uses no energy,
      lets a full battery take the vehicle from each of its nodes to the next over stations, and lets each customer be
      served between two recharges. */
  lemma ScreensExactly(inst: Instance, eps: real, order: seq<nat>)
    requires WellFormed(inst) && CustomerOrder(inst, order) && eps >= 0.0
    ensures var chain := Chain(inst, order);
      Screens(inst, eps, order) <==>
        && Accepted(Effortless(inst), eps, chain)
        && (forall k | 0 <= k <= |order| :: Linked(inst, eps, chain[k], chain[k + 1]))
        && (forall i | 0 <= i < |order| :: Served(inst, eps, order[i]))
  {
    hide Metric, Accepted, OnTime, EnergyReachable, Bracketed, Linked, Served, TotalDemand;
    var chain := Chain(inst, order);
    ChainFacts(inst, order);
    OrderAccepted(inst, eps, order);
    forall k | 0 <= k <= |order| ensures EnergyReachable(inst, eps, chain[k], chain[k + 1]) <==> Linked(inst, eps, chain[k], chain[k + 1]) {
      Apart(inst, chain, k);
      LinkedMeans(inst, eps, chain[k], chain[k + 1]);
    }
    forall i | 0 <= i < |order| ensures Bracketed(inst, eps, order[i]) <==> Served(inst, eps, order[i]) {
      ServedMeans(inst, eps, order[i]);
    }
  }

  lemma Apart(inst: Instance, chain: seq<nat>, k: nat)
    requires IsChain(inst, chain) && k + 1 < |chain|
    ensures chain[k] != chain[k + 1]
  {
    ChainEnds(inst, chain);
  }

  /** Of these, the first fails only if no route at all for the order is accepted without energy use. */
  lemma RelaxedHasRoute(inst: Instance, eps: real, order: seq<nat>)
    requires WellFormed(inst) && CustomerOrder(inst, order) && eps >= 0.0
    ensures Accepted(Effortless(inst), eps, Chain(inst, order)) <==> exists r :: Serves(Effortless(inst), eps, order, r)
  {
    hide Metric, Accepted, Screens, TotalDemand;
    var free, chain := Effortless(inst), Chain(inst, order);
    ChainFacts(inst, order);
    ChainServes(inst, order);
    SameCustomers(inst, chain);
    if Accepted(free, eps, chain) { assert Serves(free, eps, order, chain); }
    if r :| Serves(free, eps, order, r) {
      ScreenIsSafe(free, eps, order, r);
      ScreensExactly(free, eps, order);
      assert Effortless(free) == free && Chain(free, order) == chain;
    }
  }
}
