/** The termination condition is exact at every tolerance: on a network with two different stations at distance zero
    there are time windows and a vehicle for which the search regenerates equal labels forever. */
module ChargingDivergence {
  import opened EvrptwModel
  import opened PriorityQueue
  import opened ChargingSearch
  import opened ChargingTermination
  import opened TimedTermination

  /** The same node kinds and distances; time windows, demands and the vehicle may differ. */
  ghost predicate SameNetwork(a: Instance, b: Instance) {
    && |a.nodes| == |b.nodes| && a.depot == b.depot && a.dist == b.dist
    && (forall i | 0 <= i < |a.nodes| :: a.nodes[i].kind == b.nodes[i].kind)
  }

  /** Only `a` and `b` can be reached in time, and no battery is ever used. */
  function Trap(inst: Instance, eps: real, a: nat, b: nat): Instance
    requires inst.depot < |inst.nodes|
  {
    var reach := inst.dist(inst.depot, a);
    var nodes := seq(|inst.nodes|, i requires 0 <= i < |inst.nodes| =>
      Node(inst.nodes[i].kind, 0.0, 0.0, if i == a || i == b then reach else -1.0 - eps, 0.0));
    Instance(nodes, inst.depot, Vehicle(0.0, 0.0, 0.0, 0.0, 1.0), inst.dist)
  }

  ghost predicate Colocated(inst: Instance, a: nat, b: nat) {
    IsStation(inst, a) && IsStation(inst, b) && a != b && inst.dist(a, b) == 0.0
  }

  function TrapProblem(inst: Instance, eps: real, a: nat, b: nat): Problem
    requires inst.depot < |inst.nodes|
  {
    Problem(Trap(inst, eps, a, b), [], eps)
  }

  /** At the depot at the start, or at one of the two stations with the one time and distance they share. */
  predicate Spinning(inst: Instance, a: nat, b: nat, l: Label) {
    && l.progress == 0 && l.battery == 0.0
    && ((l.node == inst.depot && l.time == 0.0 && l.distance == 0.0)
        || ((l.node == a || l.node == b) && l.time == inst.dist(inst.depot, a) == l.distance))
  }

  /** No incumbent, every held label spinning, every queued label live. */
  ghost predicate Looping(inst: Instance, a: nat, b: nat, st: SearchState) {
    && st.best.None?
    && (forall e | e in st.queue :: Spinning(inst, a, b, e.item) && Live(st, e.item))
    && (forall k, l | k in st.labels && l in st.labels[k] :: KeyOf(l) == k && Spinning(inst, a, b, l))
  }

  lemma ReachTheSame(inst: Instance, a: nat, b: nat, o: nat)
    requires WellFormed(inst) && Colocated(inst, a, b)
    ensures inst.dist(o, a) == inst.dist(o, b)
  {
    assert inst.dist(o, a) <= inst.dist(o, b) + inst.dist(b, a);
    assert inst.dist(o, b) <= inst.dist(o, a) + inst.dist(a, b);
    assert inst.dist(b, a) == inst.dist(a, b);
  }

  predicate Move(inst: Instance, l: Label, k: Key) {
    k.1 < |inst.nodes| && k.0 == 0 && (k.1 != l.node || k.1 == inst.depot)
  }

  lemma SpinningExtension(inst: Instance, eps: real, a: nat, b: nat, l: Label, k: Key)
    requires WellFormed(inst) && eps >= 0.0 && Colocated(inst, a, b) && Spinning(inst, a, b, l)
    requires Move(inst, l, k)
    ensures var p := TrapProblem(inst, eps, a, b);
      var e := Extend(p, l, k.1, k.0);
      if k.1 == a || k.1 == b then e.Some? && Spinning(inst, a, b, e.value) && e.value.node == k.1 else e.None?
  {
    var p := TrapProblem(inst, eps, a, b);
    ReachTheSame(inst, a, b, inst.depot);
    assert inst.dist(l.node, k.1) >= 0.0 && inst.dist(b, a) == inst.dist(a, b);
    assert Energy(p.inst, l.node, k.1) == 0.0;
    assert Travel(p.inst, l.node, k.1) == inst.dist(l.node, k.1);
    assert inst.depot != a && inst.depot != b;
  }

  lemma SpinningRelax(inst: Instance, eps: real, a: nat, b: nat, l: Label, k: Key, st: SearchState)
    requires WellFormed(inst) && eps >= 0.0 && Colocated(inst, a, b) && Spinning(inst, a, b, l) && Looping(inst, a, b, st)
    requires Move(inst, l, k)
    ensures var st' := Relax(TrapProblem(inst, eps, a, b), l, k, st);
      Looping(inst, a, b, st') && |st'.queue| == |st.queue| + if k.1 == a || k.1 == b then 1 else 0
  {
    SpinningExtension(inst, eps, a, b, l, k);
    hide Extend, WellFormed;
    var e := Extend(TrapProblem(inst, eps, a, b), l, k.1, k.0);
    if e.Some? {
      assert forall m | m in Bucket(st, KeyOf(e.value)) ::
        Spinning(inst, a, b, m) && KeyOf(m) == KeyOf(e.value) && !Dominates(eps, m, e.value) && !Dominates(eps, e.value, m);
    }
  }

  lemma {:induction false} SpinningRelaxAll(inst: Instance, eps: real, a: nat, b: nat, l: Label, ks: seq<Key>, st: SearchState)
    requires WellFormed(inst) && eps >= 0.0 && Colocated(inst, a, b) && Spinning(inst, a, b, l) && Looping(inst, a, b, st)
    requires forall k | k in ks :: k.1 < |inst.nodes| && Move(inst, l, k)
    ensures var st' := RelaxAll(TrapProblem(inst, eps, a, b), l, ks, st);
      Looping(inst, a, b, st') && |st'.queue| >= |st.queue|
      && ((exists k | k in ks :: k.1 == a || k.1 == b) ==> |st'.queue| > |st.queue|)
  {
    if ks != [] {
      assert ks[0] in ks;
      SpinningRelax(inst, eps, a, b, l, ks[0], st);
      SpinningRelaxAll(inst, eps, a, b, l, ks[1..], Relax(TrapProblem(inst, eps, a, b), l, ks[0], st));
    }
  }

  lemma TrapMoves(inst: Instance, eps: real, a: nat, b: nat, l: Label)
    requires WellFormed(inst) && eps >= 0.0 && Colocated(inst, a, b) && Spinning(inst, a, b, l)
    ensures var ks := Successors(TrapProblem(inst, eps, a, b), l);
      && (forall k | k in ks :: k.1 < |inst.nodes| && Move(inst, l, k))
      && (exists k | k in ks :: k.1 == a || k.1 == b)
  {
    var p := TrapProblem(inst, eps, a, b);
    var other := if l.node == a then b else a;
    assert IsStation(p.inst, other) && inst.depot != a && inst.depot != b;
    assert (0, other) in StationMoves(Stations(p.inst), l);
    assert (0, other) in Successors(p, l);
  }

  lemma PopLooping(inst: Instance, a: nat, b: nat, st: SearchState, i: nat)
    requires Looping(inst, a, b, st) && i < |st.queue|
    ensures Spinning(inst, a, b, st.queue[i].item) && Live(st, st.queue[i].item)
    ensures Looping(inst, a, b, st.(queue := Without(st.queue, i), expanded := st.expanded + 1))
  {
    var rest := st.(queue := Without(st.queue, i), expanded := st.expanded + 1);
    assert st.queue[i] in st.queue;
    assert forall e | e in rest.queue :: e in st.queue;
    assert forall m :: Live(rest, m) <==> Live(st, m);
  }

  lemma SpinningIterate(inst: Instance, eps: real, a: nat, b: nat, st: SearchState)
    requires WellFormed(inst) && eps >= 0.0 && Colocated(inst, a, b) && Looping(inst, a, b, st) && st.queue != []
    ensures Looping(inst, a, b, Iterate(TrapProblem(inst, eps, a, b), st))
    ensures Iterate(TrapProblem(inst, eps, a, b), st).queue != []
  {
    assert st.best.None?;
    hide Looping, Spinning, Live, RelaxAll, Successors, Metric;
    var i := MinIndex(st.queue);
    var l := st.queue[i].item;
    PopLooping(inst, a, b, st, i);
    TrapMoves(inst, eps, a, b, l);
    SpinningRelaxAll(inst, eps, a, b, l, Successors(TrapProblem(inst, eps, a, b), l),
                     st.(queue := Without(st.queue, i), expanded := st.expanded + 1));
  }

  lemma SpinningStart(inst: Instance, eps: real, a: nat, b: nat)
    requires WellFormed(inst)
    ensures var st := Start(TrapProblem(inst, eps, a, b)); Looping(inst, a, b, st) && st.queue != []
  {
  }

  lemma {:induction false} SpinsForever(inst: Instance, eps: real, a: nat, b: nat, n: nat)
    requires WellFormed(inst) && eps >= 0.0 && Colocated(inst, a, b)
    ensures Looping(inst, a, b, After(TrapProblem(inst, eps, a, b), n)) && After(TrapProblem(inst, eps, a, b), n).queue != []
  {
    hide Looping, Iterate, Start, Metric;
    if n == 0 {
      SpinningStart(inst, eps, a, b);
    } else {
      SpinsForever(inst, eps, a, b, n - 1);
      SpinningIterate(inst, eps, a, b, After(TrapProblem(inst, eps, a, b), n - 1));
    }
  }

  /** At every tolerance a network is safe to search, whatever the time windows, the vehicle and the order, exactly
      when its stations are separated. */
  lemma TerminationCriterion(inst: Instance, eps: real)
    requires WellFormed(inst) && eps >= 0.0
    ensures Separated(inst) <==>
      forall p | ValidProblem(p) && p.eps == eps && SameNetwork(inst, p.inst) :: Halts(p)
  {
    if Separated(inst) {
      forall p | ValidProblem(p) && p.eps == eps && SameNetwork(inst, p.inst) ensures Halts(p) {
        Terminates(p);
      }
    } else {
      var a, b :| IsStation(inst, a) && IsStation(inst, b) && a != b && !(inst.dist(a, b) > 0.0);
      var p := TrapProblem(inst, eps, a, b);
      assert Colocated(inst, a, b);
      assert ValidProblem(p) && SameNetwork(inst, p.inst);
      forall n: nat ensures After(p, n).queue != [] { SpinsForever(inst, eps, a, b, n); }
      assert !Halts(p);
    }
  }
}
