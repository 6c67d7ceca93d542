/** EVRPTW instances.  A node is its position in `nodes`; the source gives every node a unique
    name and the native code uses the position of that name, so one identity serves both. */
module EvrptwModel {
  datatype NodeKind = Depot | Station | Customer

  datatype Node = Node(kind: NodeKind, demand: real, ready: real, due: real, service: real)

  datatype Vehicle = Vehicle(battery: real, load: real, consumption: real, refuelRate: real, velocity: real)

  /** `dist` stands for the Euclidean distance of two node positions. */
  datatype Instance = Instance(nodes: seq<Node>, depot: nat, vehicle: Vehicle, dist: (nat, nat) -> real)

  ghost predicate Metric(d: (nat, nat) -> real) {
    && (forall a, b :: d(a, b) >= 0.0)
    && (forall a :: d(a, a) == 0.0)
    && (forall a, b :: d(a, b) == d(b, a))
    && (forall a, b, c :: d(a, c) <= d(a, b) + d(b, c))
  }

  /** What the instance constructor checks, and the physical ranges of distances and rates. */
  ghost predicate WellFormed(inst: Instance) {
    && inst.depot < |inst.nodes|
    && (forall i | 0 <= i < |inst.nodes| :: inst.nodes[i].kind.Depot? <==> i == inst.depot)
    && inst.vehicle.velocity > 0.0
    && inst.vehicle.consumption >= 0.0
    && inst.vehicle.refuelRate >= 0.0
    && inst.vehicle.battery >= 0.0
    && Metric(inst.dist)
  }

  predicate IsStation(inst: Instance, v: nat) {
    v < |inst.nodes| && inst.nodes[v].kind.Station?
  }

  predicate IsCustomer(inst: Instance, v: nat) {
    v < |inst.nodes| && inst.nodes[v].kind.Customer?
  }

  /** The stations in node order. */
  function Stations(inst: Instance): (s: seq<nat>)
    ensures forall v: nat :: v in s <==> IsStation(inst, v)
    ensures forall i, j | 0 <= i < j < |s| :: s[i] < s[j]
  {
    StationsBelow(inst, |inst.nodes|)
  }

  function StationsBelow(inst: Instance, n: nat): (s: seq<nat>)
    requires n <= |inst.nodes|
    ensures forall v: nat :: v in s <==> v < n && IsStation(inst, v)
    ensures forall i, j | 0 <= i < j < |s| :: s[i] < s[j]
  {
    if n == 0 then []
    else if inst.nodes[n - 1].kind.Station? then
      var t := StationsBelow(inst, n - 1);
      assert forall i | 0 <= i < |t| :: t[i] in t;
      t + [n - 1]
    else StationsBelow(inst, n - 1)
  }

  function Energy(inst: Instance, a: nat, b: nat): real {
    inst.dist(a, b) * inst.vehicle.consumption
  }

  function Travel(inst: Instance, a: nat, b: nat): real
    requires inst.vehicle.velocity != 0.0
  {
    inst.dist(a, b) / inst.vehicle.velocity
  }

  function Max(x: real, y: real): real { if x >= y then x else y }

  function Min(x: real, y: real): real { if x <= y then x else y }

  lemma MulMono(x: real, y: real, k: real)
    requires x <= y && k >= 0.0
    ensures x * k <= y * k
  {
    assert (y - x) * k >= 0.0;
  }

  /** Charging never takes less than no time. */
  lemma ChargeNonNegative(v: Vehicle, left: real)
    requires left <= v.battery && v.refuelRate >= 0.0
    ensures (v.battery - left) * v.refuelRate >= 0.0
  {
    MulMono(0.0, v.battery - left, v.refuelRate);
  }

  lemma LegNonNegative(inst: Instance, a: nat, b: nat)
    requires WellFormed(inst)
    ensures Energy(inst, a, b) >= 0.0 && Travel(inst, a, b) >= 0.0
  {
    MulMono(0.0, inst.dist(a, b), inst.vehicle.consumption);
  }

  lemma LegTriangle(inst: Instance, a: nat, b: nat, c: nat)
    requires WellFormed(inst)
    ensures Energy(inst, a, c) <= Energy(inst, a, b) + Energy(inst, b, c)
    ensures Travel(inst, a, c) <= Travel(inst, a, b) + Travel(inst, b, c)
  {
    var ab, bc, ac := inst.dist(a, b), inst.dist(b, c), inst.dist(a, c);
    MulMono(ac, ab + bc, inst.vehicle.consumption);
    assert (ab + bc) * inst.vehicle.consumption == ab * inst.vehicle.consumption + bc * inst.vehicle.consumption;
    DivMono(ac, ab + bc, inst.vehicle.velocity);
    assert (ab + bc) / inst.vehicle.velocity == ab / inst.vehicle.velocity + bc / inst.vehicle.velocity;
  }

  lemma DivMono(x: real, y: real, k: real)
    requires x <= y && k > 0.0
    ensures x / k <= y / k
  {
    MulMono(x, y, 1.0 / k);
    assert x / k == x * (1.0 / k) && y / k == y * (1.0 / k);
  }
}
