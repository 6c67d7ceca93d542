/** The exact charging search: labels, extension, dominance and one turn of the search loop. */
module ChargingSearch {
  import opened Options
  import opened EvrptwModel
  import opened PriorityQueue

  /** A fixed customer order on an instance, searched with tolerance `eps`. */
  datatype Problem = Problem(inst: Instance, order: seq<nat>, eps: real)

  datatype Label = Label(progress: nat, node: nat, time: real, battery: real, distance: real,
                         energy: real, charged: real, chargeTime: real, path: seq<nat>)

  type Key = (nat, nat)

  datatype SearchState = SearchState(labels: map<Key, seq<Label>>, queue: seq<Entry<Label>>, best: Option<Label>,
                                     generated: nat, expanded: nat, pruned: nat, serial: nat)

  // ---- the problem -------------------------------------------------------------------------------

  /** What holds once order validation has succeeded: known customers, each at most once. */
  ghost predicate ValidProblem(p: Problem) {
    && WellFormed(p.inst)
    && (forall i | 0 <= i < |p.order| :: IsCustomer(p.inst, p.order[i]))
    && (forall i, j | 0 <= i < j < |p.order| :: p.order[i] != p.order[j])
  }

  function KeyOf(l: Label): Key { (l.progress, l.node) }

  function Initial(p: Problem): Label
    requires p.inst.depot < |p.inst.nodes|
  {
    Label(0, p.inst.depot, Max(0.0, p.inst.nodes[p.inst.depot].ready), p.inst.vehicle.battery,
          0.0, 0.0, 0.0, 0.0, [p.inst.depot])
  }

  /** Arrival, wait, due-date check and full recharge: the effect of one leg on the clock and the battery. */
  datatype Arrival = Arrival(time: real, battery: real, charged: real, chargeTime: real)

  function Arrive(inst: Instance, eps: real, time: real, battery: real, origin: nat, dest: nat): Option<Arrival>
    requires dest < |inst.nodes| && inst.vehicle.velocity != 0.0
  {
    var node := inst.nodes[dest];
    var energy := Energy(inst, origin, dest);
    if energy > battery + eps then None
    else
      var left := Max(0.0, battery - energy);
      var elapsed := Max(time + Travel(inst, origin, dest), node.ready);
      if elapsed > node.due + eps then None
      else match node.kind
        case Depot => Some(Arrival(elapsed, left, 0.0, 0.0))
        case Customer => Some(Arrival(elapsed + node.service, left, 0.0, 0.0))
        case Station =>
          var charged := inst.vehicle.battery - left;
          var chargeTime := charged * inst.vehicle.refuelRate;
          if elapsed + chargeTime > node.due + eps then None
          else Some(Arrival(elapsed + chargeTime, inst.vehicle.battery, charged, chargeTime))
  }

  function Extend(p: Problem, l: Label, dest: nat, progress: nat): (r: Option<Label>)
    requires dest < |p.inst.nodes| && p.inst.vehicle.velocity != 0.0
  {
    match Arrive(p.inst, p.eps, l.time, l.battery, l.node, dest)
    case None => None
    case Some(a) =>
      Some(Label(progress, dest, a.time, a.battery, l.distance + p.inst.dist(l.node, dest),
                 l.energy + Energy(p.inst, l.node, dest), l.charged + a.charged,
                 l.chargeTime + a.chargeTime, l.path + [dest]))
  }

  /** The next customer (or, all served, the depot), then every other station at the same progress. */
  function Successors(p: Problem, l: Label): (s: seq<Key>)
    ensures |s| <= |Stations(p.inst)| + 1
    ensures forall k: Key :: k in s <==> k == Onward(p, l) || (k.0 == l.progress && IsStation(p.inst, k.1) && k.1 != l.node)
  {
    [Onward(p, l)] + StationMoves(Stations(p.inst), l)
  }

  function Onward(p: Problem, l: Label): Key {
    if l.progress < |p.order| then (l.progress + 1, p.order[l.progress]) else (l.progress, p.inst.depot)
  }

  function StationMoves(stations: seq<nat>, l: Label): (s: seq<Key>)
    ensures |s| <= |stations|
    ensures forall k: Key :: k in s <==> k.0 == l.progress && k.1 in stations && k.1 != l.node
  {
    if stations == [] then []
    else
      var rest := StationMoves(stations[1..], l);
      assert forall v :: v in stations <==> v == stations[0] || v in stations[1..];
      if stations[0] != l.node then [(l.progress, stations[0])] + rest else rest
  }

  predicate Dominates(eps: real, l: Label, r: Label) {
    && l.time <= r.time + eps && l.battery + eps >= r.battery && l.distance <= r.distance + eps
    && (l.time < r.time - eps || l.battery > r.battery + eps || l.distance < r.distance - eps)
  }

  predicate BetterTerminal(c: Label, incumbent: Label) {
    c.distance < incumbent.distance || (c.distance == incumbent.distance && c.time < incumbent.time)
  }

  predicate IsTerminal(p: Problem, progress: nat, dest: nat) {
    progress == |p.order| && dest < |p.inst.nodes| && p.inst.nodes[dest].kind.Depot?
  }

  // ---- one turn of the loop ------------------------------------------------------------------------

  function Bucket(st: SearchState, k: Key): seq<Label> {
    if k in st.labels then st.labels[k] else []
  }

  function Prioritized(c: Label, serial: nat): Entry<Label> {
    Entry(Priority(c.distance, c.time, -(c.progress as int), serial), c)
  }

  /** The labels of a bucket that a newcomer does not dominate, in order. */
  function Undominated(eps: real, bucket: seq<Label>, c: Label): (s: seq<Label>)
    ensures |s| <= |bucket|
    ensures forall m :: m in s <==> m in bucket && !Dominates(eps, c, m)
  {
    if bucket == [] then []
    else
      var rest := Undominated(eps, bucket[1..], c);
      assert forall m :: m in bucket <==> m == bucket[0] || m in bucket[1..];
      if Dominates(eps, c, bucket[0]) then rest else [bucket[0]] + rest
  }

  /** Files a feasible candidate: as incumbent, as a pruned label, or as a live queued label. */
  function File(p: Problem, st: SearchState, c: Label): SearchState {
    if IsTerminal(p, c.progress, c.node) then
      if st.best.None? || BetterTerminal(c, st.best.value) then st.(best := Some(c)) else st
    else
      var bucket := Bucket(st, KeyOf(c));
      if exists m | m in bucket :: Dominates(p.eps, m, c) then st.(pruned := st.pruned + 1)
      else
        var survivors := Undominated(p.eps, bucket, c);
        st.(labels := st.labels[KeyOf(c) := survivors + [c]],
            pruned := st.pruned + (|bucket| - |survivors|),
            queue := st.queue + [Prioritized(c, st.serial)],
            serial := st.serial + 1)
  }

  function Relax(p: Problem, l: Label, k: Key, st: SearchState): SearchState
    requires k.1 < |p.inst.nodes| && p.inst.vehicle.velocity != 0.0
  {
    var counted := st.(generated := st.generated + 1);
    match Extend(p, l, k.1, k.0)
    case None => counted.(pruned := counted.pruned + 1)
    case Some(c) => File(p, counted, c)
  }

  function RelaxAll(p: Problem, l: Label, ks: seq<Key>, st: SearchState): SearchState
    requires forall k | k in ks :: k.1 < |p.inst.nodes|
    requires p.inst.vehicle.velocity != 0.0
  {
    if ks == [] then st else RelaxAll(p, l, ks[1..], Relax(p, l, ks[0], st))
  }

  /** A popped label is still live when its bucket still holds it. */
  predicate Live(st: SearchState, l: Label) { l in Bucket(st, KeyOf(l)) }

  /** The label cannot improve on the incumbent. */
  predicate Cut(p: Problem, st: SearchState, l: Label) {
    st.best.Some? && l.distance >= st.best.value.distance - p.eps
  }

  predicate Runnable(p: Problem) {
    && p.inst.depot < |p.inst.nodes| && p.inst.vehicle.velocity != 0.0
    && (forall i | 0 <= i < |p.order| :: p.order[i] < |p.inst.nodes|)
  }

  function Iterate(p: Problem, st: SearchState): SearchState
    requires Runnable(p)
  {
    if st.queue == [] then st
    else
      var i := MinIndex(st.queue);
      var l := st.queue[i].item;
      var rest := st.(queue := Without(st.queue, i));
      if !Live(st, l) then rest
      else if Cut(p, st, l) then rest.(pruned := st.pruned + 1)
      else RelaxAll(p, l, Successors(p, l), rest.(expanded := st.expanded + 1))
  }

  function Start(p: Problem): SearchState
    requires Runnable(p)
  {
    var l := Initial(p);
    SearchState(map[KeyOf(l) := [l]], [Prioritized(l, 0)], None, 1, 0, 0, 1)
  }

  /** The search after `n` turns; a finished search stays as it is. */
  function After(p: Problem, n: nat): SearchState
    requires Runnable(p)
  {
    if n == 0 then Start(p) else Iterate(p, After(p, n - 1))
  }

  // ---- station-insertion patterns --------------------------------------------------------------------

  /** `k` is a move the extension rule offers from `l`. */
  predicate Offered(p: Problem, l: Label, k: Key) { k in Successors(p, l) }

  /** The progress after moving from `l` to `dest`. */
  function NextProgress(p: Problem, l: Label, dest: nat): nat {
    if l.progress < |p.order| && dest == p.order[l.progress] then l.progress + 1 else l.progress
  }

  /** The label at the end of a path walked by the extension rule, if every leg is offered and feasible.
      A completed route is not walked on. */
  function Walk(p: Problem, path: seq<nat>): (r: Option<Label>)
    requires Runnable(p)
    ensures r.Some? ==> r.value.path == path && path != []
  {
    if |path| == 0 then None
    else if |path| == 1 then
      if path[0] == p.inst.depot then Some(Initial(p)) else None
    else
      var dest := path[|path| - 1];
      match Walk(p, path[..|path| - 1])
      case None => None
      case Some(l) =>
        var k := (NextProgress(p, l, dest), dest);
        if dest < |p.inst.nodes| && Offered(p, l, k) && !Complete(p, l) then Extend(p, l, dest, k.0) else None
  }

  /** All customers served and back at the depot after at least one leg. */
  predicate Complete(p: Problem, l: Label) {
    IsTerminal(p, l.progress, l.node) && |l.path| > 1
  }
}
