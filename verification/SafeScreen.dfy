/** The safe screen of a customer order: optimistic bounds that never reject an order the validator could accept. */
module SafeScreen {
  import opened EvrptwModel
  import opened RouteValidator

  // ---- what the screen decides ---------------------------------------------------------------------------

  /** The customers in order between two calls at the depot, without any station. */
  function Chain(inst: Instance, route: seq<nat>): seq<nat> { [inst.depot] + route + [inst.depot] }

  /** A non-empty order of known customers, each at most once. */
  ghost predicate CustomerOrder(inst: Instance, route: seq<nat>) {
    && route != []
    && (forall i | 0 <= i < |route| :: IsCustomer(inst, route[i]))
    && (forall i, j | 0 <= i < j < |route| :: route[i] != route[j])
  }

  /** A chain: the depot, customers each at most once, and the depot again. */
  ghost predicate IsChain(inst: Instance, chain: seq<nat>) {
    && WellFormed(inst) && Known(inst, chain) && |chain| > 2 && chain[0] == inst.depot == chain[|chain| - 1]
    && (forall k | 1 <= k < |chain| - 1 :: inst.nodes[chain[k]].kind.Customer?)
    && (forall j, k | 1 <= j < k < |chain| - 1 :: chain[j] != chain[k])
  }

  lemma ChainFacts(inst: Instance, route: seq<nat>)
    requires WellFormed(inst) && CustomerOrder(inst, route)
    ensures var chain := Chain(inst, route);
      && |chain| == |route| + 2 && Known(inst, chain) && chain[0] == inst.depot == chain[|route| + 1]
      && (forall k | 1 <= k <= |route| :: chain[k] == route[k - 1] && inst.nodes[chain[k]].kind.Customer?)
      && IsChain(inst, chain)
  {
  }

  function Service(inst: Instance, v: nat): real
    requires v < |inst.nodes|
  {
    if inst.nodes[v].kind.Customer? then inst.nodes[v].service else 0.0
  }

  /** The earliest arrival at a chain position, waiting included; position 0 is the start. */
  function Earliest(inst: Instance, chain: seq<nat>, k: nat): real
    requires inst.depot < |inst.nodes| && inst.vehicle.velocity != 0.0 && Known(inst, chain) && k < |chain|
    decreases k, 0
  {
    if k == 0 then Max(0.0, inst.nodes[inst.depot].ready)
    else Max(Departure(inst, chain, k - 1) + Travel(inst, chain[k - 1], chain[k]), inst.nodes[chain[k]].ready)
  }

  function Departure(inst: Instance, chain: seq<nat>, k: nat): real
    requires inst.depot < |inst.nodes| && inst.vehicle.velocity != 0.0 && Known(inst, chain) && k < |chain|
    decreases k, 1
  {
    Earliest(inst, chain, k) + Service(inst, chain[k])
  }

  /** The latest arrival at chain position `k` from which the rest of the chain can still be on time. */
  function Latest(inst: Instance, chain: seq<nat>, k: nat): real
    requires inst.depot < |inst.nodes| && inst.vehicle.velocity != 0.0 && Known(inst, chain) && k < |chain|
    decreases |chain| - k
  {
    Min(inst.nodes[chain[k]].due, LatestDeparture(inst, chain, k) - Service(inst, chain[k]))
  }

  function LatestDeparture(inst: Instance, chain: seq<nat>, k: nat): real
    requires inst.depot < |inst.nodes| && inst.vehicle.velocity != 0.0 && Known(inst, chain) && k < |chain|
    decreases |chain| - k, 0
  {
    if k == |chain| - 1 then inst.nodes[inst.depot].due
    else Latest(inst, chain, k + 1) - Travel(inst, chain[k], chain[k + 1])
  }

  predicate Affordable(inst: Instance, eps: real, a: nat, b: nat) {
    Energy(inst, a, b) <= inst.vehicle.battery + eps
  }

  /** A chain of stations from `origin`, every hop affordable on a full battery. */
  ghost predicate Hops(inst: Instance, eps: real, origin: nat, path: seq<nat>) {
    && path != [] && path[0] == origin
    && (forall i | 0 < i < |path| :: IsStation(inst, path[i]) && Affordable(inst, eps, path[i - 1], path[i]))
  }

  ghost predicate Reaches(inst: Instance, eps: real, origin: nat, v: nat) {
    exists path :: Hops(inst, eps, origin, path) && path[|path| - 1] == v
  }

  ghost predicate EnergyReachable(inst: Instance, eps: real, origin: nat, dest: nat) {
    origin == dest || exists v :: Reaches(inst, eps, origin, v) && Affordable(inst, eps, v, dest)
  }

  predicate Recharge(inst: Instance, v: nat) { v == inst.depot || IsStation(inst, v) }

  /** Some recharge node before and some after the customer fit into one battery. */
  ghost predicate Bracketed(inst: Instance, eps: real, c: nat) {
    exists u, w :: Recharge(inst, u) && Recharge(inst, w) && Through(inst, u, c, w) <= inst.vehicle.battery + eps
  }

  function Through(inst: Instance, u: nat, c: nat, w: nat): real {
    (inst.dist(u, c) + inst.dist(c, w)) * inst.vehicle.consumption
  }

  /** Every due date up to a chain position is met on the earliest arrivals. */
  ghost predicate DueDatesMet(inst: Instance, eps: real, chain: seq<nat>, upto: nat)
    requires inst.depot < |inst.nodes| && inst.vehicle.velocity != 0.0 && Known(inst, chain) && upto <= |chain|
  {
    forall k | 1 <= k < upto :: inst.nodes[chain[k]].due - Earliest(inst, chain, k) >= -eps
  }

  ghost predicate OnTime(inst: Instance, eps: real, chain: seq<nat>)
    requires inst.depot < |inst.nodes| && inst.vehicle.velocity != 0.0 && Known(inst, chain)
  {
    && DueDatesMet(inst, eps, chain, |chain|)
    && (forall k | 1 <= k < |chain| - 1 :: Latest(inst, chain, k) - Earliest(inst, chain, k) >= -eps)
  }

  ghost predicate Screens(inst: Instance, eps: real, route: seq<nat>)
    requires inst.depot < |inst.nodes| && inst.vehicle.velocity != 0.0 && Known(inst, route)
  {
    && TotalDemand(inst, route) <= inst.vehicle.load + eps
    && OnTime(inst, eps, Chain(inst, route))
    && (forall k | 0 <= k <= |route| :: EnergyReachable(inst, eps, Chain(inst, route)[k], Chain(inst, route)[k + 1]))
    && (forall i | 0 <= i < |route| :: Bracketed(inst, eps, route[i]))
  }

  // ---- the screen's loops --------------------------------------------------------------------------------

  /** Depth-first search over stations on full batteries. */
  method EnergyReachableOptimistically(inst: Instance, eps: real, origin: nat, dest: nat) returns (reachable: bool)
    ensures reachable <==> EnergyReachable(inst, eps, origin, dest)
  {
    hide Affordable, Reaches;
    if origin == dest {
      return true;
    }
    var stations := Stations(inst);
    var frontier := [origin];
    var visited: set<nat> := {};
    ghost var explored: set<nat> := {};
    ghost var all := set v | v in stations;
    ReachesItself(inst, eps, origin);
    while frontier != []
      invariant forall v | v in frontier :: Reaches(inst, eps, origin, v)
      invariant visited <= all
      invariant forall v | v in visited || v == origin :: v in explored || v in frontier
      invariant forall v | v in explored :: !Affordable(inst, eps, v, dest) && Expanded(inst, eps, v, visited)
      decreases all - visited, |frontier|
    {
      var current := frontier[|frontier| - 1];
      frontier := frontier[..|frontier| - 1];
      if Affordable(inst, eps, current, dest) {
        return true;
      }
      explored := explored + {current};
      visited, frontier := Grow(inst, eps, origin, current, stations, visited, frontier);
    }
    NotReached(inst, eps, origin, dest, explored, visited);
    return false;
  }

  /** The stations one affordable hop away that have not been visited yet. */
  method Grow(inst: Instance, eps: real, ghost origin: nat, current: nat, stations: seq<nat>, visited: set<nat>, frontier: seq<nat>)
    returns (visited': set<nat>, frontier': seq<nat>)
    requires Reaches(inst, eps, origin, current) && forall v | v in frontier :: Reaches(inst, eps, origin, v)
    requires forall v: nat :: v in stations <==> IsStation(inst, v)
    ensures visited <= visited' <= visited + set v | v in stations
    ensures forall v | v in frontier' :: Reaches(inst, eps, origin, v)
    ensures forall v | v in visited' || v in frontier :: v in visited || v in frontier'
    ensures forall v | v in frontier :: v in frontier'
    ensures Expanded(inst, eps, current, visited')
    ensures visited' == visited ==> frontier' == frontier
  {
    hide Affordable, Reaches;
    visited', frontier' := visited, frontier;
    for i := 0 to |stations|
      invariant visited <= visited' <= visited + set v | v in stations
      invariant forall v | v in frontier' :: Reaches(inst, eps, origin, v)
      invariant forall v | v in visited' :: v in visited || v in frontier'
      invariant forall v | v in frontier :: v in frontier'
      invariant forall j | 0 <= j < i && Affordable(inst, eps, current, stations[j]) :: stations[j] in visited' || stations[j] == current
      invariant visited' == visited ==> frontier' == frontier
    {
      var station := stations[i];
      if station != current && station !in visited' && Affordable(inst, eps, current, station) {
        ReachesOn(inst, eps, origin, current, station);
        visited' := visited' + {station};
        frontier' := frontier' + [station];
      }
    }
  }

  lemma ReachesItself(inst: Instance, eps: real, v: nat)
    ensures Reaches(inst, eps, v, v)
  {
    assert Hops(inst, eps, v, [v]);
  }

  ghost predicate Expanded(inst: Instance, eps: real, v: nat, visited: set<nat>) {
    forall s | IsStation(inst, s) && Affordable(inst, eps, v, s) :: s in visited || s == v
  }

  lemma ReachesOn(inst: Instance, eps: real, origin: nat, v: nat, s: nat)
    requires Reaches(inst, eps, origin, v) && IsStation(inst, s) && Affordable(inst, eps, v, s)
    ensures Reaches(inst, eps, origin, s)
  {
    var path :| Hops(inst, eps, origin, path) && path[|path| - 1] == v;
    assert Hops(inst, eps, origin, path + [s]) && (path + [s])[|path|] == s;
  }

  lemma {:induction false} HopsExplored(inst: Instance, eps: real, origin: nat, path: seq<nat>,
                                        explored: set<nat>, visited: set<nat>)
    requires Hops(inst, eps, origin, path) && origin in explored && visited <= explored
    requires forall v | v in explored :: Expanded(inst, eps, v, visited)
    ensures path[|path| - 1] in explored
  {
    if |path| > 1 {
      HopsExplored(inst, eps, origin, path[..|path| - 1], explored, visited);
    }
  }

  lemma NotReached(inst: Instance, eps: real, origin: nat, dest: nat, explored: set<nat>, visited: set<nat>)
    requires origin != dest && origin in explored && visited <= explored
    requires forall v | v in explored :: !Affordable(inst, eps, v, dest) && Expanded(inst, eps, v, visited)
    ensures !EnergyReachable(inst, eps, origin, dest)
  {
    forall v | Reaches(inst, eps, origin, v) ensures !Affordable(inst, eps, v, dest) {
      var path :| Hops(inst, eps, origin, path) && path[|path| - 1] == v;
      HopsExplored(inst, eps, origin, path, explored, visited);
    }
  }

  /** The least distance from a recharge node to a customer. */
  function NearestTo(inst: Instance, recharge: seq<nat>, c: nat): (d: real)
    requires recharge != []
    ensures exists u | u in recharge :: d == inst.dist(u, c)
    ensures forall u | u in recharge :: d <= inst.dist(u, c)
  {
    if |recharge| == 1 then inst.dist(recharge[0], c)
    else
      assert forall u | u in recharge :: u == recharge[0] || u in recharge[1..];
      Min(inst.dist(recharge[0], c), NearestTo(inst, recharge[1..], c))
  }

  /** The least distance from a customer to a recharge node. */
  function NearestFrom(inst: Instance, recharge: seq<nat>, c: nat): (d: real)
    requires recharge != []
    ensures exists w | w in recharge :: d == inst.dist(c, w)
    ensures forall w | w in recharge :: d <= inst.dist(c, w)
  {
    if |recharge| == 1 then inst.dist(c, recharge[0])
    else
      assert forall w | w in recharge :: w == recharge[0] || w in recharge[1..];
      Min(inst.dist(c, recharge[0]), NearestFrom(inst, recharge[1..], c))
  }

  function RechargeNodes(inst: Instance): (s: seq<nat>)
    ensures s != [] && forall u :: u in s <==> Recharge(inst, u)
  {
    [inst.depot] + Stations(inst)
  }

  /** The structural bound of one customer. */
  function CustomerBound(inst: Instance, c: nat): real {
    (NearestTo(inst, RechargeNodes(inst), c) + NearestFrom(inst, RechargeNodes(inst), c)) * inst.vehicle.consumption
  }

  lemma BoundDecides(inst: Instance, eps: real, c: nat)
    requires WellFormed(inst)
    ensures CustomerBound(inst, c) <= inst.vehicle.battery + eps <==> Bracketed(inst, eps, c)
  {
    var u, w := BoundIsThrough(inst, c);
    hide CustomerBound, Through, WellFormed;
    if Bracketed(inst, eps, c) {
      var u', w' :| Recharge(inst, u') && Recharge(inst, w') && Through(inst, u', c, w') <= inst.vehicle.battery + eps;
      BoundIsLeast(inst, u', c, w');
    }
  }

  lemma BoundIsThrough(inst: Instance, c: nat) returns (u: nat, w: nat)
    ensures Recharge(inst, u) && Recharge(inst, w) && Through(inst, u, c, w) == CustomerBound(inst, c)
  {
    var recharge := RechargeNodes(inst);
    var x, y := NearestTo(inst, recharge, c), NearestFrom(inst, recharge, c);
    u :| u in recharge && x == inst.dist(u, c);
    w :| w in recharge && y == inst.dist(c, w);
  }

  lemma BoundIsLeast(inst: Instance, u: nat, c: nat, w: nat)
    requires WellFormed(inst) && Recharge(inst, u) && Recharge(inst, w)
    ensures CustomerBound(inst, c) <= Through(inst, u, c, w)
  {
    hide RechargeNodes, NearestTo, NearestFrom, Metric;
    var x, y := NearestTo(inst, RechargeNodes(inst), c), NearestFrom(inst, RechargeNodes(inst), c);
    assert u in RechargeNodes(inst) && w in RechargeNodes(inst);
    MulMono(x + y, inst.dist(u, c) + inst.dist(c, w), inst.vehicle.consumption);
  }

  method FitsStructurally(inst: Instance, eps: real, route: seq<nat>) returns (fits: bool)
    requires WellFormed(inst) && CustomerOrder(inst, route)
    ensures fits <==> forall i | 0 <= i < |route| :: Bracketed(inst, eps, route[i])
  {
    hide WellFormed, CustomerBound, Bracketed;
    var bound := CustomerBound(inst, route[0]);
    BoundDecides(inst, eps, route[0]);
    for i := 1 to |route|
      invariant bound <= inst.vehicle.battery + eps <==> forall j | 0 <= j < i :: Bracketed(inst, eps, route[j])
    {
      BoundDecides(inst, eps, route[i]);
      bound := Max(bound, CustomerBound(inst, route[i]));
    }
    fits := bound <= inst.vehicle.battery + eps;
  }

  /** The table holds the earliest arrivals at chain positions 1 to `n` and nothing else. */
  ghost predicate Tabled(inst: Instance, chain: seq<nat>, n: nat, earliest: map<nat, real>)
    requires inst.depot < |inst.nodes| && inst.vehicle.velocity != 0.0 && Known(inst, chain) && n < |chain|
  {
    && (forall k | 1 <= k <= n :: chain[k] in earliest && earliest[chain[k]] == Earliest(inst, chain, k))
    && (forall v | v in earliest :: exists k | 1 <= k <= n :: chain[k] == v)
  }

  /** The forward pass: earliest arrivals by customer, and whether every due date is met. */
  method ForwardPass(inst: Instance, eps: real, chain: seq<nat>) returns (ok: bool, earliest: map<nat, real>)
    requires IsChain(inst, chain)
    ensures ok <==> DueDatesMet(inst, eps, chain, |chain|)
    ensures ok ==> Tabled(inst, chain, |chain| - 2, earliest)
  {
    hide *;
    TablesBegin(inst, eps, chain);
    var time := Max(0.0, inst.nodes[inst.depot].ready);
    earliest := map[];
    for k := 1 to |chain|
      invariant time == Departure(inst, chain, k - 1)
      invariant DueDatesMet(inst, eps, chain, k)
      invariant Tabled(inst, chain, if k < |chain| then k - 1 else |chain| - 2, earliest)
    {
      EarliestStep(inst, chain, k);
      var node := inst.nodes[chain[k]];
      time := Max(time + Travel(inst, chain[k - 1], chain[k]), node.ready);
      DueDateStep(inst, eps, chain, k);
      if node.due - time < -eps {
        return false, earliest;
      }
      if node.kind.Customer? {
        TabledStep(inst, chain, k - 1, earliest);
        earliest := earliest[chain[k] := time];
        time := time + node.service;
      }
    }
    ok := true;
  }

  lemma TablesBegin(inst: Instance, eps: real, chain: seq<nat>)
    requires IsChain(inst, chain)
    ensures inst.depot < |inst.nodes| && inst.vehicle.velocity != 0.0 && Known(inst, chain) && |chain| > 2
    ensures DueDatesMet(inst, eps, chain, 1) && Tabled(inst, chain, 0, map[])
    ensures Departure(inst, chain, 0) == Max(0.0, inst.nodes[inst.depot].ready)
  {
  }

  lemma EarliestStep(inst: Instance, chain: seq<nat>, k: nat)
    requires IsChain(inst, chain) && 1 <= k < |chain|
    ensures chain[k] < |inst.nodes| && inst.vehicle.velocity != 0.0
    ensures Earliest(inst, chain, k)
      == Max(Departure(inst, chain, k - 1) + Travel(inst, chain[k - 1], chain[k]), inst.nodes[chain[k]].ready)
    ensures Departure(inst, chain, k) == Earliest(inst, chain, k) + Service(inst, chain[k])
    ensures inst.nodes[chain[k]].kind.Customer? <==> k < |chain| - 1
    ensures Service(inst, chain[k]) == if inst.nodes[chain[k]].kind.Customer? then inst.nodes[chain[k]].service else 0.0
  {
  }

  lemma DueDateStep(inst: Instance, eps: real, chain: seq<nat>, k: nat)
    requires IsChain(inst, chain) && 1 <= k < |chain|
    ensures var slack := inst.nodes[chain[k]].due - Earliest(inst, chain, k);
      && (slack < -eps ==> !DueDatesMet(inst, eps, chain, |chain|))
      && (slack >= -eps && DueDatesMet(inst, eps, chain, k) ==> DueDatesMet(inst, eps, chain, k + 1))
  {
    hide Earliest;
  }

  lemma TabledStep(inst: Instance, chain: seq<nat>, n: nat, earliest: map<nat, real>)
    requires IsChain(inst, chain) && n + 2 < |chain| && Tabled(inst, chain, n, earliest)
    ensures Tabled(inst, chain, n + 1, earliest[chain[n + 1] := Earliest(inst, chain, n + 1)])
  {
    hide Earliest;
  }

  /** The backward pass: latest arrivals by customer. */
  method BackwardPass(inst: Instance, chain: seq<nat>) returns (latest: map<nat, real>)
    requires IsChain(inst, chain)
    ensures forall k | 1 <= k < |chain| - 1 :: chain[k] in latest && latest[chain[k]] == Latest(inst, chain, k)
  {
    var latestDeparture := inst.nodes[inst.depot].due;
    latest := map[];
    hide Travel, Metric;
    for k := |chain| - 1 downto 0
      invariant latestDeparture == LatestDeparture(inst, chain, k)
      invariant forall j | k < j < |chain| - 1 :: chain[j] in latest && latest[chain[j]] == Latest(inst, chain, j)
    {
      var node := inst.nodes[chain[k + 1]];
      var arrival := Min(node.due, latestDeparture);
      if node.kind.Customer? {
        arrival := Min(node.due, latestDeparture - node.service);
        latest := latest[chain[k + 1] := arrival];
      }
      latestDeparture := arrival - Travel(inst, chain[k], chain[k + 1]);
    }
  }

  /** Both passes and the comparison of their tables. */
  method ScreensOnTime(inst: Instance, eps: real, chain: seq<nat>) returns (onTime: bool)
    requires IsChain(inst, chain)
    ensures onTime <==> OnTime(inst, eps, chain)
  {
    hide Earliest, Latest, Metric;
    var ok, earliest := ForwardPass(inst, eps, chain);
    if !ok {
      return false;
    }
    var latest := BackwardPass(inst, chain);
    onTime := forall v | v in earliest :: latest[v] - earliest[v] >= -eps;
    if onTime {
      forall k | 1 <= k < |chain| - 1 ensures Latest(inst, chain, k) - Earliest(inst, chain, k) >= -eps {
        assert chain[k] in earliest;
      }
    }
  }

  /** The whole screen of one route, load check included. */
  method ScreenRoute(inst: Instance, eps: real, route: seq<nat>) returns (passes: bool)
    requires WellFormed(inst) && CustomerOrder(inst, route)
    ensures passes <==> Screens(inst, eps, route)
  {
    hide OnTime, Bracketed, EnergyReachable, Metric, TotalDemand;
    if TotalDemand(inst, route) > inst.vehicle.load + eps {
      return false;
    }
    ChainFacts(inst, route);
    var onTime := ScreensOnTime(inst, eps, Chain(inst, route));
    if !onTime {
      return false;
    }
    var chain := Chain(inst, route);
    for k := 0 to |route| + 1
      invariant forall j | 0 <= j < k :: EnergyReachable(inst, eps, chain[j], chain[j + 1])
    {
      var reachable := EnergyReachableOptimistically(inst, eps, chain[k], chain[k + 1]);
      if !reachable {
        return false;
      }
    }
    passes := FitsStructurally(inst, eps, route);
  }
}
