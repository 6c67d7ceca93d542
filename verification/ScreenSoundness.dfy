/** Rejection by the screen is a proof: whatever the tolerance, no route for a rejected order passes the validator. */
module ScreenSoundness {
  import opened EvrptwModel
  import opened RouteValidator
  import opened SafeScreen

  /** An accepted route for a customer order. */
  ghost predicate Serves(inst: Instance, eps: real, order: seq<nat>, r: seq<nat>) {
    && WellFormed(inst) && eps >= 0.0 && CustomerOrder(inst, order)
    && Known(inst, r) && Accepted(inst, eps, r) && CustomersOf(inst, r) == order
  }

  /** How far along the chain a route prefix has come. */
  function Pos(inst: Instance, r: seq<nat>, m: nat): nat
    requires 1 <= m <= |r|
  {
    |CustomersOf(inst, r[..m])| + if m == |r| then 1 else 0
  }

  function DriveAt(inst: Instance, eps: real, r: seq<nat>, m: nat): Drive
    requires WellFormed(inst) && Known(inst, r) && 1 <= m <= |r|
  {
    DriveOf(inst, eps, r[..m])
  }

  function ArrivalAt(inst: Instance, eps: real, r: seq<nat>, m: nat): real
    requires WellFormed(inst) && Known(inst, r) && 1 <= m < |r|
  {
    Max(DriveAt(inst, eps, r, m).time + Travel(inst, r[m - 1], r[m]), inst.nodes[r[m]].ready)
  }

  lemma {:induction false} CustomersPrefix(inst: Instance, r: seq<nat>, m: nat)
    requires m <= |r|
    ensures CustomersOf(inst, r[..m]) <= CustomersOf(inst, r)
    decreases |r|
  {
    if m < |r| {
      CustomersPrefix(inst, r[..|r| - 1], m);
      assert r[..|r| - 1][..m] == r[..m];
    } else {
      assert r[..m] == r;
    }
  }

  /** One leg of an accepted route, seen from the chain and from the drive. */
  lemma LegView(inst: Instance, eps: real, order: seq<nat>, r: seq<nat>, m: nat)
    requires Serves(inst, eps, order, r) && 1 <= m < |r|
    ensures var chain, j, j' := Chain(inst, order), Pos(inst, r, m), Pos(inst, r, m + 1);
      && j <= |order| && j' < |chain|
      && (if IsStation(inst, r[m]) then j' == j else j' == j + 1 && chain[j'] == r[m])
      && (IsCustomer(inst, r[m]) <==> j < j' <= |order|)
  {
    var n := |r|;
    assert r[..m + 1][..m] == r[..m] && r[..n] == r;
    CustomersPrefix(inst, r, m);
    CustomersPrefix(inst, r, m + 1);
    assert EndsAtDepot(inst, r) && inst.depot !in r[1..n - 1];
    if m < n - 1 {
      assert r[m] == r[1..n - 1][m - 1];
    }
  }

  lemma ShapeIsClean(inst: Instance, eps: real, order: seq<nat>, r: seq<nat>)
    requires Serves(inst, eps, order, r)
    ensures EndsAtDepot(inst, r) && |r| >= 2 && DriveOf(inst, eps, r).violations == []
    ensures TotalDemand(inst, order) <= inst.vehicle.load + eps
  {
  }

  lemma {:induction false} PrefixClean(inst: Instance, eps: real, r: seq<nat>, m: nat)
    requires WellFormed(inst) && Known(inst, r) && DriveOf(inst, eps, r).violations == [] && 1 <= m <= |r|
    ensures DriveOf(inst, eps, r[..m]).violations == []
    ensures DriveOf(inst, eps, r[..m]).battery <= inst.vehicle.battery
    decreases |r|
  {
    hide DriveLeg, Metric;
    if m < |r| {
      var s := r[..|r| - 1];
      LegEffect(inst, eps, DriveOf(inst, eps, s), r[|r| - 2], r[|r| - 1], |r| - 1);
      PrefixClean(inst, eps, s, m);
      assert s[..m] == r[..m];
    } else {
      assert r[..m] == r;
      if |r| > 1 {
        var s := r[..|r| - 1];
        LegEffect(inst, eps, DriveOf(inst, eps, s), r[|r| - 2], r[|r| - 1], |r| - 1);
        LegNonNegative(inst, r[|r| - 2], r[|r| - 1]);
        PrefixClean(inst, eps, s, |s|);
        assert s[..|s|] == s;
      }
    }
  }

  /** What the drive does on one leg of an accepted route. */
  lemma LegDriven(inst: Instance, eps: real, order: seq<nat>, r: seq<nat>, m: nat)
    requires Serves(inst, eps, order, r) && 1 <= m < |r|
    ensures var d, d', e := DriveAt(inst, eps, r, m), DriveAt(inst, eps, r, m + 1), Energy(inst, r[m - 1], r[m]);
      && e <= d.battery + eps && d.battery <= inst.vehicle.battery
      && ArrivalAt(inst, eps, r, m) <= inst.nodes[r[m]].due + eps
      && (if IsStation(inst, r[m]) then d'.time >= ArrivalAt(inst, eps, r, m) && d'.battery == inst.vehicle.battery
          else d'.time == ArrivalAt(inst, eps, r, m) + Service(inst, r[m]) && d'.battery == d.battery - e)
  {
    hide DriveLeg, Metric;
    ShapeIsClean(inst, eps, order, r);
    PrefixClean(inst, eps, r, m);
    PrefixClean(inst, eps, r, m + 1);
    DriveStep(inst, eps, r, m);
    LegEffect(inst, eps, DriveAt(inst, eps, r, m), r[m - 1], r[m], m);
  }

  lemma StartView(inst: Instance, eps: real, order: seq<nat>, r: seq<nat>)
    requires Serves(inst, eps, order, r)
    ensures |r| >= 2 && r[0] == inst.depot && Pos(inst, r, 1) == 0 && DriveAt(inst, eps, r, 1) == Begin(inst)
    ensures Pos(inst, r, |r|) == |order| + 1
    ensures inst.nodes[inst.depot].kind.Depot?
  {
    ShapeIsClean(inst, eps, order, r);
    assert r[..1] == [inst.depot] && r[..|r|] == r;
    assert CustomersOf(inst, [inst.depot]) == [];
  }

  // ---- time ----------------------------------------------------------------------------------------------

  /** The route is never ahead of the optimistic schedule. */
  ghost predicate Behind(inst: Instance, eps: real, chain: seq<nat>, r: seq<nat>, m: nat)
    requires WellFormed(inst) && Known(inst, r) && Known(inst, chain) && 1 <= m <= |r| && Pos(inst, r, m) < |chain|
  {
    Departure(inst, chain, Pos(inst, r, m)) + Travel(inst, chain[Pos(inst, r, m)], r[m - 1]) <= DriveAt(inst, eps, r, m).time
  }

  lemma SelfTravel(inst: Instance, v: nat)
    requires WellFormed(inst)
    ensures Travel(inst, v, v) == 0.0 && Energy(inst, v, v) == 0.0
  {
    assert inst.dist(v, v) == 0.0;
  }

  lemma BehindStep(inst: Instance, eps: real, order: seq<nat>, r: seq<nat>, m: nat)
    requires Serves(inst, eps, order, r) && 1 <= m < |r| && IsChain(inst, Chain(inst, order))
    requires Pos(inst, r, m) < |Chain(inst, order)| && Behind(inst, eps, Chain(inst, order), r, m)
    ensures Pos(inst, r, m + 1) < |Chain(inst, order)| && Behind(inst, eps, Chain(inst, order), r, m + 1)
    ensures !IsStation(inst, r[m]) ==>
      Earliest(inst, Chain(inst, order), Pos(inst, r, m + 1)) <= ArrivalAt(inst, eps, r, m)
  {
    hide Metric, DriveAt, Pos, Travel, Energy, Chain, Accepted, CustomerOrder, CustomersOf, IsChain, Earliest, Departure, Service;
    LegView(inst, eps, order, r, m);
    LegDriven(inst, eps, order, r, m);
    var chain, j := Chain(inst, order), Pos(inst, r, m);
    LegTriangle(inst, chain[j], r[m - 1], r[m]);
    SelfTravel(inst, r[m]);
    if !IsStation(inst, r[m]) {
      EarliestStep(inst, chain, j + 1);
    }
  }

  /** Every chain position reached so far was reached on time. */
  lemma {:induction false} ReachedOnTime(inst: Instance, eps: real, order: seq<nat>, r: seq<nat>, m: nat)
    requires Serves(inst, eps, order, r) && 1 <= m <= |r| && IsChain(inst, Chain(inst, order))
    ensures Pos(inst, r, m) < |Chain(inst, order)| && Behind(inst, eps, Chain(inst, order), r, m)
    ensures DueDatesMet(inst, eps, Chain(inst, order), Pos(inst, r, m) + 1)
  {
    hide Metric, DriveAt, Pos, Travel, Energy, Chain, Accepted, CustomerOrder, CustomersOf, IsChain, Departure, Earliest;
    if m == 1 {
      FirstOnTime(inst, eps, order, r);
    } else {
      ReachedOnTime(inst, eps, order, r, m - 1);
      BehindStep(inst, eps, order, r, m - 1);
      LegView(inst, eps, order, r, m - 1);
      LegDriven(inst, eps, order, r, m - 1);
    }
  }

  lemma FirstOnTime(inst: Instance, eps: real, order: seq<nat>, r: seq<nat>)
    requires Serves(inst, eps, order, r) && 1 <= |r| && IsChain(inst, Chain(inst, order))
    ensures Pos(inst, r, 1) < |Chain(inst, order)| && Behind(inst, eps, Chain(inst, order), r, 1)
    ensures DueDatesMet(inst, eps, Chain(inst, order), Pos(inst, r, 1) + 1)
  {
    hide Metric, DriveAt, Pos, Travel, Energy, Accepted, CustomersOf, DriveOf;
    StartView(inst, eps, order, r);
    SelfTravel(inst, inst.depot);
  }

  /** From any point of the route the rest of the chain is met before its latest arrivals. */
  ghost predicate Ahead(inst: Instance, eps: real, chain: seq<nat>, r: seq<nat>, m: nat)
    requires WellFormed(inst) && Known(inst, r) && Known(inst, chain) && 1 <= m < |r| && Pos(inst, r, m) + 1 < |chain|
  {
    var j := Pos(inst, r, m);
    && DriveAt(inst, eps, r, m).time + Travel(inst, r[m - 1], chain[j + 1]) <= Latest(inst, chain, j + 1) + eps
    && (forall k | j < k < |chain| - 1 :: Earliest(inst, chain, k) <= Latest(inst, chain, k) + eps)
  }

  lemma LatestStep(inst: Instance, chain: seq<nat>, k: nat)
    requires IsChain(inst, chain) && 1 <= k < |chain|
    ensures chain[k] < |inst.nodes|
    ensures Latest(inst, chain, k) == Min(inst.nodes[chain[k]].due,
      (if k == |chain| - 1 then inst.nodes[inst.depot].due else Latest(inst, chain, k + 1) - Travel(inst, chain[k], chain[k + 1]))
        - Service(inst, chain[k]))
    ensures k == |chain| - 1 ==> chain[k] == inst.depot && Service(inst, chain[k]) == 0.0
  {
  }

  lemma {:induction false} RestOnTime(inst: Instance, eps: real, order: seq<nat>, r: seq<nat>, m: nat)
    requires Serves(inst, eps, order, r) && 1 <= m < |r| && IsChain(inst, Chain(inst, order))
    ensures Pos(inst, r, m) + 1 < |Chain(inst, order)| && Ahead(inst, eps, Chain(inst, order), r, m)
    decreases |r| - m
  {
    hide Metric, DriveAt, Pos, Travel, Energy, Chain, Accepted, CustomerOrder, CustomersOf, IsChain, Departure, Earliest,
         Latest, LatestDeparture, Service, Behind;
    var chain, j := Chain(inst, order), Pos(inst, r, m);
    ReachedOnTime(inst, eps, order, r, m);
    BehindStep(inst, eps, order, r, m);
    LegView(inst, eps, order, r, m);
    LegDriven(inst, eps, order, r, m);
    ChainFacts(inst, order);
    if m + 1 < |r| {
      RestOnTime(inst, eps, order, r, m + 1);
      LegTriangle(inst, r[m - 1], r[m], chain[j + 1]);
    } else {
      StartView(inst, eps, order, r);
    }
    LatestStep(inst, chain, j + 1);
  }

  lemma PositionsKnown(inst: Instance, order: seq<nat>)
    requires WellFormed(inst) && CustomerOrder(inst, order)
    ensures Known(inst, Chain(inst, order)) && IsChain(inst, Chain(inst, order)) && |Chain(inst, order)| == |order| + 2
  {
    ChainFacts(inst, order);
  }

  lemma AcceptedOnTime(inst: Instance, eps: real, order: seq<nat>, r: seq<nat>)
    requires Serves(inst, eps, order, r)
    ensures Known(inst, Chain(inst, order)) && OnTime(inst, eps, Chain(inst, order))
  {
    hide Metric, DriveAt, Pos, Travel, Energy, Chain, Accepted, CustomerOrder, CustomersOf, IsChain, Earliest, Latest;
    PositionsKnown(inst, order);
    StartView(inst, eps, order, r);
    ReachedOnTime(inst, eps, order, r, |r|);
    RestOnTime(inst, eps, order, r, 1);
  }

  // ---- energy --------------------------------------------------------------------------------------------

  /** Between two chain neighbours the route hops over stations a full battery could hop over. */
  lemma {:induction false} SegmentsReachable(inst: Instance, eps: real, order: seq<nat>, r: seq<nat>, m: nat)
    requires Serves(inst, eps, order, r) && 1 <= m <= |r| && IsChain(inst, Chain(inst, order))
    ensures var chain := Chain(inst, order); var j := Pos(inst, r, m);
      && j < |chain| && Reaches(inst, eps, chain[j], r[m - 1])
      && (forall k | 0 <= k < j :: EnergyReachable(inst, eps, chain[k], chain[k + 1]))
  {
    hide Metric, DriveAt, Pos, Travel, Energy, Chain, Accepted, CustomerOrder, CustomersOf, IsChain, Reaches, ArrivalAt;
    var chain := Chain(inst, order);
    if m == 1 {
      StartView(inst, eps, order, r);
      ChainFacts(inst, order);
      ReachesItself(inst, eps, inst.depot);
    } else {
      SegmentsReachable(inst, eps, order, r, m - 1);
      LegView(inst, eps, order, r, m - 1);
      LegDriven(inst, eps, order, r, m - 1);
      assert Affordable(inst, eps, r[m - 2], r[m - 1]);
      if IsStation(inst, r[m - 1]) {
        ReachesOn(inst, eps, chain[Pos(inst, r, m)], r[m - 2], r[m - 1]);
      } else {
        ReachesItself(inst, eps, r[m - 1]);
        assert EnergyReachable(inst, eps, chain[Pos(inst, r, m - 1)], r[m - 1]);
      }
    }
  }

  /** The energy spent since the last recharge covers the way from some recharge node. */
  lemma {:induction false} SpentSince(inst: Instance, eps: real, order: seq<nat>, r: seq<nat>, m: nat) returns (u: nat)
    requires Serves(inst, eps, order, r) && 1 <= m <= |r|
    ensures Recharge(inst, u)
    ensures Energy(inst, u, r[m - 1]) <= inst.vehicle.battery - DriveAt(inst, eps, r, m).battery
  {
    hide Metric, DriveAt, Pos, Travel, Energy, Chain, Accepted, CustomerOrder, CustomersOf, ArrivalAt;
    if m == 1 {
      StartView(inst, eps, order, r);
      SelfTravel(inst, inst.depot);
      u := inst.depot;
    } else if IsStation(inst, r[m - 1]) {
      LegDriven(inst, eps, order, r, m - 1);
      SelfTravel(inst, r[m - 1]);
      u := r[m - 1];
    } else {
      u := SpentSince(inst, eps, order, r, m - 1);
      LegDriven(inst, eps, order, r, m - 1);
      LegTriangle(inst, u, r[m - 2], r[m - 1]);
    }
  }

  /** The energy left reaches some recharge node. */
  lemma {:induction false} LeftReaches(inst: Instance, eps: real, order: seq<nat>, r: seq<nat>, m: nat) returns (w: nat)
    requires Serves(inst, eps, order, r) && 1 <= m < |r|
    ensures Recharge(inst, w)
    ensures Energy(inst, r[m - 1], w) <= DriveAt(inst, eps, r, m).battery + eps
    decreases |r| - m
  {
    hide Metric, DriveAt, Pos, Travel, Energy, Chain, Accepted, CustomerOrder, CustomersOf, ArrivalAt;
    LegDriven(inst, eps, order, r, m);
    if IsStation(inst, r[m]) || r[m] == inst.depot {
      w := r[m];
    } else {
      ShapeIsClean(inst, eps, order, r);
      w := LeftReaches(inst, eps, order, r, m + 1);
      LegTriangle(inst, r[m - 1], r[m], w);
    }
  }

  lemma {:induction false} CustomerAppears(inst: Instance, r: seq<nat>, c: nat) returns (m: nat)
    requires c in CustomersOf(inst, r)
    ensures 1 <= m <= |r| && r[m - 1] == c
  {
    if IsCustomer(inst, r[|r| - 1]) && r[|r| - 1] == c {
      m := |r|;
    } else {
      m := CustomerAppears(inst, r[..|r| - 1], c);
    }
  }

  lemma CustomerBracketed(inst: Instance, eps: real, order: seq<nat>, r: seq<nat>, c: nat)
    requires Serves(inst, eps, order, r) && c in order
    ensures Bracketed(inst, eps, c)
  {
    hide Metric, DriveAt, Accepted, Energy, Travel, CustomersOf;
    var m := CustomerAppears(inst, r, c);
    StartView(inst, eps, order, r);
    ShapeIsClean(inst, eps, order, r);
    assert IsCustomer(inst, c) && m < |r|;
    var u := SpentSince(inst, eps, order, r, m);
    var w := LeftReaches(inst, eps, order, r, m);
    ThroughIsEnergy(inst, u, c, w);
    assert Through(inst, u, c, w) <= inst.vehicle.battery + eps;
  }

  lemma ThroughIsEnergy(inst: Instance, u: nat, c: nat, w: nat)
    ensures Through(inst, u, c, w) == Energy(inst, u, c) + Energy(inst, c, w)
  {
  }

  // ---- the theorem ---------------------------------------------------------------------------------------

  /** An order with an accepted route passes the screen.  Read backwards: rejection proves that no route for the
      order is accepted, at the tolerance the program uses or any other. */
  lemma ScreenIsSafe(inst: Instance, eps: real, order: seq<nat>, r: seq<nat>)
    requires Serves(inst, eps, order, r)
    ensures Screens(inst, eps, order)
  {
    hide Metric, Accepted, Earliest, Latest, CustomersOf, TotalDemand, Bracketed, EnergyReachable, OnTime, Chain, Pos;
    PositionsKnown(inst, order);
    ShapeIsClean(inst, eps, order, r);
    StartView(inst, eps, order, r);
    AcceptedOnTime(inst, eps, order, r);
    SegmentsReachable(inst, eps, order, r, |r|);
    forall i | 0 <= i < |order| ensures Bracketed(inst, eps, order[i]) {
      CustomerBracketed(inst, eps, order, r, order[i]);
    }
  }
}
