/** Instances whose numbers are multiples of a unit larger than the tolerance: there the tolerant comparisons decide as
    the plain ones do, so the search at the tolerance is the search at tolerance zero. */
module GridInstances {
  import opened EvrptwModel
  import opened PriorityQueue
  import opened ChargingSearch
  import opened ChargingExactness
  import opened RouteValidator
  import opened SearchAgreement

  function Units(k: int, u: real): real { k as real * u }

  /** `x` is a whole number of units. */
  ghost predicate Whole(x: real, u: real) { exists k: int :: x == Units(k, u) }

  lemma UnitsAdd(j: int, k: int, u: real)
    ensures Units(j, u) + Units(k, u) == Units(j + k, u) && Units(j, u) - Units(k, u) == Units(j - k, u)
  {
  }

  lemma WholeSum(x: real, y: real, u: real)
    requires Whole(x, u) && Whole(y, u)
    ensures Whole(x + y, u) && Whole(x - y, u)
  {
    hide Units;
    var j: int :| x == Units(j, u);
    var k: int :| y == Units(k, u);
    UnitsAdd(j, k, u);
  }

  lemma WholeProduct(x: real, r: int, u: real)
    requires Whole(x, u)
    ensures Whole(x * r as real, u)
  {
    var k: int :| x == Units(k, u);
    assert x * r as real == Units(k * r, u);
  }

  lemma UnitsApart(j: int, k: int, u: real)
    requires j < k && u >= 0.0
    ensures Units(j, u) + u <= Units(k, u)
  {
    MulMono(1.0, (k - j) as real, u);
    UnitsAdd(k, j, u);
  }

  /** On whole units less than a unit of tolerance changes no comparison. */
  lemma SameOrder(x: real, y: real, u: real, eps: real)
    requires Whole(x, u) && Whole(y, u) && 0.0 <= eps < u
    ensures (x <= y + eps <==> x <= y) && (x < y - eps <==> x < y) && (x >= y - eps <==> x >= y) && (x > y + eps <==> x > y)
    ensures x + eps >= y <==> x >= y
  {
    hide Units;
    var j: int :| x == Units(j, u);
    var k: int :| y == Units(k, u);
    if j < k {
      UnitsApart(j, k, u);
    } else if k < j {
      UnitsApart(k, j, u);
    }
  }

  // ---- the condition -----------------------------------------------------------------------------------------

  /** Everything the search and the validator compare comes in whole units, and charging a unit takes whole units. */
  ghost predicate OnGrid(inst: Instance, u: real)
    requires inst.vehicle.velocity != 0.0
  {
    && (forall a, b :: Whole(inst.dist(a, b), u) && Whole(Energy(inst, a, b), u) && Whole(Travel(inst, a, b), u))
    && (forall i | 0 <= i < |inst.nodes| :: NodeOnGrid(inst.nodes[i], u))
    && Whole(inst.vehicle.battery, u) && Whole(inst.vehicle.refuelRate, 1.0)
  }

  ghost predicate NodeOnGrid(node: Node, u: real) {
    Whole(node.ready, u) && Whole(node.due, u) && Whole(node.service, u)
  }

  /** No tolerance, or one smaller than a unit of the instance: a caller can check this before the search. */
  ghost predicate Sharp(p: Problem)
    requires Runnable(p)
  {
    p.eps == 0.0 || (p.eps > 0.0 && exists u: real :: u > p.eps && OnGrid(p.inst, u))
  }

  /** The same problem without tolerance. */
  function Plain(p: Problem): Problem { p.(eps := 0.0) }

  // ---- the same search ---------------------------------------------------------------------------------------

  ghost predicate LabelOnGrid(l: Label, u: real) { Whole(l.time, u) && Whole(l.battery, u) && Whole(l.distance, u) }

  ghost predicate StateOnGrid(st: SearchState, u: real) {
    && (forall k, l | k in st.labels && l in st.labels[k] :: LabelOnGrid(l, u))
    && (forall e | e in st.queue :: LabelOnGrid(e.item, u))
    && (st.best.Some? ==> LabelOnGrid(st.best.value, u))
  }

  lemma WholeZero(u: real)
    ensures Whole(0.0, u)
  {
    assert 0.0 == Units(0, u);
  }

  lemma WholeCharge(inst: Instance, u: real, charged: real, charge: real)
    requires inst.vehicle.velocity != 0.0 && OnGrid(inst, u) && Whole(charged, u) && charge == charged * inst.vehicle.refuelRate
    ensures Whole(charge, u)
  {
    var r: int :| inst.vehicle.refuelRate == Units(r, 1.0);
    WholeProduct(charged, r, u);
    assert inst.vehicle.refuelRate == r as real;
  }

  lemma WholeMax(x: real, y: real, u: real)
    requires Whole(x, u) && Whole(y, u)
    ensures Whole(Max(x, y), u)
  {
  }

  /** The parts of an arrival are whole. */
  lemma LegOnGrid(inst: Instance, u: real, time: real, battery: real, origin: nat, dest: nat, left: real, elapsed: real, charge: real)
    requires inst.vehicle.velocity != 0.0 && OnGrid(inst, u) && Whole(time, u) && Whole(battery, u) && dest < |inst.nodes|
    requires left == Max(0.0, battery - Energy(inst, origin, dest))
    requires elapsed == Max(time + Travel(inst, origin, dest), inst.nodes[dest].ready)
    requires charge == (inst.vehicle.battery - left) * inst.vehicle.refuelRate
    ensures Whole(left, u) && Whole(elapsed, u) && Whole(elapsed + inst.nodes[dest].service, u) && Whole(elapsed + charge, u)
    ensures Whole(Energy(inst, origin, dest), u) && Whole(inst.nodes[dest].due, u)
  {
    hide Energy, Travel, Whole, Max;
    assert NodeOnGrid(inst.nodes[dest], u);
    WholeSum(battery, Energy(inst, origin, dest), u);
    WholeZero(u);
    WholeMax(0.0, battery - Energy(inst, origin, dest), u);
    WholeSum(time, Travel(inst, origin, dest), u);
    WholeMax(time + Travel(inst, origin, dest), inst.nodes[dest].ready, u);
    WholeSum(elapsed, inst.nodes[dest].service, u);
    WholeSum(inst.vehicle.battery, left, u);
    WholeCharge(inst, u, inst.vehicle.battery - left, charge);
    WholeSum(elapsed, charge, u);
  }

  lemma ArriveSame(inst: Instance, eps: real, u: real, time: real, battery: real, origin: nat, dest: nat)
    requires inst.vehicle.velocity != 0.0 && 0.0 <= eps < u && OnGrid(inst, u) && Whole(time, u) && Whole(battery, u)
    requires dest < |inst.nodes|
    ensures Arrive(inst, eps, time, battery, origin, dest) == Arrive(inst, 0.0, time, battery, origin, dest)
    ensures var a := Arrive(inst, eps, time, battery, origin, dest);
      a.Some? ==> Whole(a.value.time, u) && Whole(a.value.battery, u)
  {
    hide Energy, Travel, Whole, OnGrid, Max;
    var left := Max(0.0, battery - Energy(inst, origin, dest));
    var elapsed := Max(time + Travel(inst, origin, dest), inst.nodes[dest].ready);
    var charge := (inst.vehicle.battery - left) * inst.vehicle.refuelRate;
    LegOnGrid(inst, u, time, battery, origin, dest, left, elapsed, charge);
    CapacityOnGrid(inst, u);
    SameOrder(Energy(inst, origin, dest), battery, u, eps);
    SameOrder(elapsed, inst.nodes[dest].due, u, eps);
    SameOrder(elapsed + charge, inst.nodes[dest].due, u, eps);
  }

  lemma CapacityOnGrid(inst: Instance, u: real)
    requires inst.vehicle.velocity != 0.0 && OnGrid(inst, u)
    ensures Whole(inst.vehicle.battery, u) && forall a, b :: Whole(inst.dist(a, b), u)
  {
  }

  lemma ExtendSame(p: Problem, u: real, l: Label, dest: nat, progress: nat)
    requires ValidProblem(p) && 0.0 <= p.eps < u && OnGrid(p.inst, u) && LabelOnGrid(l, u) && dest < |p.inst.nodes|
    ensures Extend(p, l, dest, progress) == Extend(Plain(p), l, dest, progress)
    ensures Extend(p, l, dest, progress).Some? ==> LabelOnGrid(Extend(p, l, dest, progress).value, u)
  {
    hide Arrive, Energy, Travel, Whole, Metric, OnGrid;
    ArriveSame(p.inst, p.eps, u, l.time, l.battery, l.node, dest);
    CapacityOnGrid(p.inst, u);
    WholeSum(l.distance, p.inst.dist(l.node, dest), u);
  }

  lemma DominatesSame(u: real, eps: real, l: Label, r: Label)
    requires 0.0 <= eps < u && LabelOnGrid(l, u) && LabelOnGrid(r, u)
    ensures Dominates(eps, l, r) <==> Dominates(0.0, l, r)
  {
    hide Whole;
    SameOrder(l.time, r.time, u, eps);
    SameOrder(l.battery, r.battery, u, eps);
    SameOrder(l.distance, r.distance, u, eps);
  }

  lemma {:induction false} UndominatedSame(u: real, eps: real, bucket: seq<Label>, c: Label)
    requires 0.0 <= eps < u && LabelOnGrid(c, u) && forall m | m in bucket :: LabelOnGrid(m, u)
    ensures Undominated(eps, bucket, c) == Undominated(0.0, bucket, c)
  {
    hide LabelOnGrid, Dominates;
    if bucket != [] {
      assert bucket[0] in bucket;
      DominatesSame(u, eps, c, bucket[0]);
      UndominatedSame(u, eps, bucket[1..], c);
    }
  }

  lemma FileSame(p: Problem, u: real, st: SearchState, c: Label)
    requires 0.0 <= p.eps < u && StateOnGrid(st, u) && LabelOnGrid(c, u)
    ensures File(p, st, c) == File(Plain(p), st, c) && StateOnGrid(File(p, st, c), u)
  {
    hide LabelOnGrid, Dominates;
    var bucket := Bucket(st, KeyOf(c));
    forall m | m in bucket ensures Dominates(p.eps, m, c) <==> Dominates(0.0, m, c) { DominatesSame(u, p.eps, m, c); }
    UndominatedSame(u, p.eps, bucket, c);
  }

  lemma RelaxSame(p: Problem, u: real, l: Label, k: Key, st: SearchState)
    requires ValidProblem(p) && 0.0 <= p.eps < u && OnGrid(p.inst, u) && StateOnGrid(st, u) && LabelOnGrid(l, u) && k.1 < |p.inst.nodes|
    ensures Relax(p, l, k, st) == Relax(Plain(p), l, k, st) && StateOnGrid(Relax(p, l, k, st), u)
  {
    hide LabelOnGrid, Extend, File, OnGrid, Metric;
    ExtendSame(p, u, l, k.1, k.0);
    var e := Extend(p, l, k.1, k.0);
    if e.Some? { FileSame(p, u, st.(generated := st.generated + 1), e.value); }
  }

  lemma {:induction false} RelaxAllSame(p: Problem, u: real, l: Label, ks: seq<Key>, st: SearchState)
    requires ValidProblem(p) && 0.0 <= p.eps < u && OnGrid(p.inst, u) && StateOnGrid(st, u) && LabelOnGrid(l, u)
    requires forall k | k in ks :: k.1 < |p.inst.nodes|
    ensures RelaxAll(p, l, ks, st) == RelaxAll(Plain(p), l, ks, st) && StateOnGrid(RelaxAll(p, l, ks, st), u)
  {
    hide LabelOnGrid, Relax, OnGrid, Metric, StateOnGrid;
    if ks != [] {
      assert ks[0] in ks;
      RelaxSame(p, u, l, ks[0], st);
      RelaxAllSame(p, u, l, ks[1..], Relax(p, l, ks[0], st));
    }
  }

  lemma CutSame(p: Problem, u: real, st: SearchState, l: Label)
    requires 0.0 <= p.eps < u && StateOnGrid(st, u) && LabelOnGrid(l, u)
    ensures Cut(p, st, l) <==> Cut(Plain(p), st, l)
  {
    hide Whole;
    if st.best.Some? { SameOrder(l.distance, st.best.value.distance, u, p.eps); }
  }

  lemma PopOnGrid(st: SearchState, u: real, i: nat)
    requires StateOnGrid(st, u) && i < |st.queue|
    ensures LabelOnGrid(st.queue[i].item, u)
    ensures forall expanded, pruned :: StateOnGrid(st.(queue := Without(st.queue, i), expanded := expanded, pruned := pruned), u)
  {
    hide LabelOnGrid;
    assert st.queue[i] in st.queue;
    assert forall e | e in Without(st.queue, i) :: e in st.queue;
  }

  lemma IterateSame(p: Problem, u: real, st: SearchState)
    requires ValidProblem(p) && 0.0 <= p.eps < u && OnGrid(p.inst, u) && StateOnGrid(st, u)
    ensures Iterate(p, st) == Iterate(Plain(p), st) && StateOnGrid(Iterate(p, st), u)
  {
    hide LabelOnGrid, RelaxAll, OnGrid, Metric, StateOnGrid, Cut, Live, StationMoves, Stations, Onward;
    if st.queue != [] {
      var i := MinIndex(st.queue);
      var l := st.queue[i].item;
      var rest := st.(queue := Without(st.queue, i));
      PopOnGrid(st, u, i);
      assert StateOnGrid(rest.(expanded := st.expanded, pruned := st.pruned), u);
      assert StateOnGrid(rest.(expanded := st.expanded, pruned := st.pruned + 1), u);
      assert StateOnGrid(rest.(expanded := st.expanded + 1, pruned := st.pruned), u);
      CutSame(p, u, st, l);
      SuccessorsKnown(p, l);
      SuccessorsSame(p, l);
      RelaxAllSame(p, u, l, Successors(p, l), rest.(expanded := st.expanded + 1));
    }
  }

  lemma SuccessorsSame(p: Problem, l: Label)
    ensures Successors(p, l) == Successors(Plain(p), l)
  {
  }

  lemma StartSame(p: Problem, u: real)
    requires ValidProblem(p) && OnGrid(p.inst, u)
    ensures Start(p) == Start(Plain(p)) && StateOnGrid(Start(p), u) && LabelOnGrid(Initial(p), u)
  {
    WholeZero(u);
    assert NodeOnGrid(p.inst.nodes[p.inst.depot], u);
  }

  lemma {:induction false} SearchSame(p: Problem, u: real, n: nat)
    requires ValidProblem(p) && 0.0 <= p.eps < u && OnGrid(p.inst, u)
    ensures After(p, n) == After(Plain(p), n) && StateOnGrid(After(p, n), u)
  {
    hide Iterate, Start, StateOnGrid, OnGrid, Metric;
    if n == 0 {
      StartSame(p, u);
    } else {
      SearchSame(p, u, n - 1);
      IterateSame(p, u, After(p, n - 1));
    }
  }

  lemma {:induction false} WalkSame(p: Problem, u: real, path: seq<nat>)
    requires ValidProblem(p) && 0.0 <= p.eps < u && OnGrid(p.inst, u)
    ensures Walk(p, path) == Walk(Plain(p), path)
    ensures Walk(p, path).Some? ==> LabelOnGrid(Walk(p, path).value, u)
    decreases |path|
  {
    hide Extend, OnGrid, Metric, LabelOnGrid, Complete, Successors;
    if |path| == 1 {
      StartSame(p, u);
    } else if |path| > 1 {
      var prefix, dest := path[..|path| - 1], path[|path| - 1];
      WalkSame(p, u, prefix);
      if Walk(p, prefix).Some? {
        var l := Walk(p, prefix).value;
        SuccessorsSame(p, l);
        CompleteSame(p, l);
        if dest < |p.inst.nodes| { ExtendSame(p, u, l, dest, NextProgress(p, l, dest)); }
      }
    }
  }

  lemma CompleteSame(p: Problem, l: Label)
    ensures Complete(p, l) <==> Complete(Plain(p), l)
  {
  }

  // ---- what follows ------------------------------------------------------------------------------------------

  /** On a sharp problem the search at the tolerance goes through the states of the plain search, and its patterns are
      the plain ones. */
  lemma SharpIsPlain(p: Problem)
    requires ValidProblem(p) && Sharp(p)
    ensures forall n: nat :: After(p, n) == After(Plain(p), n)
    ensures forall path :: Walk(p, path) == Walk(Plain(p), path)
    ensures forall path :: Pattern(p, path) <==> Pattern(Plain(p), path)
  {
    hide After, Walk, OnGrid, Metric;
    if p.eps == 0.0 {
      assert Plain(p) == p;
    } else {
      var u: real :| u > p.eps && OnGrid(p.inst, u);
      forall n: nat ensures After(p, n) == After(Plain(p), n) { SearchSame(p, u, n); }
      forall path ensures Walk(p, path) == Walk(Plain(p), path) { WalkSame(p, u, path); }
    }
  }

  /** On a sharp problem dominance is fair. */
  lemma SharpIsFair(p: Problem)
    requires ValidProblem(p) && Sharp(p)
    ensures Fair(p)
  {
    hide Walk, OnGrid, Metric, LabelOnGrid;
    if p.eps == 0.0 {
      ZeroIsFair(p);
    } else {
      var u: real :| u > p.eps && OnGrid(p.inst, u);
      forall q, r | Walk(p, q).Some? && Walk(p, r).Some? ensures FairTo(p.eps, Walk(p, q).value, Walk(p, r).value) {
        WalkSame(p, u, q);
        WalkSame(p, u, r);
        DominatesSame(u, p.eps, Walk(p, q).value, Walk(p, r).value);
      }
    }
  }

  /** On a sharp problem the search is exact. */
  lemma SharpExactness(p: Problem, n: nat)
    requires ValidProblem(p) && Sharp(p) && After(p, n).queue == []
    ensures var best := After(p, n).best;
      && (best.Some? ==> Walk(p, best.value.path) == best && Complete(p, best.value))
      && (forall path | Pattern(p, path) :: best.Some? && best.value.distance <= Walk(p, path).value.distance)
  {
    hide After, Walk, Sharp, Complete;
    SharpIsPlain(p);
    ZeroIsFair(Plain(p));
    Exactness(Plain(p), n);
    if After(p, n).best.Some? { CompleteSame(p, After(p, n).best.value); }
  }

  /** On a sharp problem the clamp never takes effect, so every pattern is accepted with equal totals. */
  lemma SharpClampFree(p: Problem, path: seq<nat>)
    requires ValidProblem(p) && Sharp(p) && Walk(p, path).Some?
    ensures ClampFree(p, path)
  {
    hide Walk, Sharp;
    SharpIsPlain(p);
    NoClamp(Plain(p), path);
  }

  lemma {:induction false} DriveOnGrid(inst: Instance, eps: real, u: real, route: seq<nat>)
    requires WellFormed(inst) && OnGrid(inst, u) && Known(inst, route)
    ensures Whole(DriveOf(inst, eps, route).battery, u)
  {
    hide DriveLeg, Whole, Metric, Energy, Travel;
    var n := |route|;
    if n > 1 {
      DriveOnGrid(inst, eps, u, route[..n - 1]);
      var d := DriveOf(inst, eps, route[..n - 1]);
      LegEffect(inst, eps, d, route[n - 2], route[n - 1], n - 1);
      WholeSum(d.battery, Energy(inst, route[n - 2], route[n - 1]), u);
    }
  }

  /** On a sharp problem the validator grants no overdraft either. */
  lemma SharpSolvent(p: Problem, r: seq<nat>)
    requires ValidProblem(p) && Sharp(p) && Known(p.inst, r) && DriveOf(p.inst, p.eps, r).violations == []
    ensures Solvent(p.inst, p.eps, r)
  {
    hide DriveOf, DriveLeg, OnGrid, Metric;
    if p.eps == 0.0 {
      ZeroIsSolvent(p.inst, r);
    } else {
      var u: real :| u > p.eps && OnGrid(p.inst, u);
      forall m | 0 < m < |r| ensures PaysFor(p.inst, p.eps, r, m) { SharpPays(p, u, r, m); }
    }
  }

  lemma SharpPays(p: Problem, u: real, r: seq<nat>, m: nat)
    requires ValidProblem(p) && 0.0 <= p.eps < u && OnGrid(p.inst, u) && Known(p.inst, r) && 0 < m < |r|
    requires DriveOf(p.inst, p.eps, r).violations == []
    ensures PaysFor(p.inst, p.eps, r, m)
  {
    hide DriveOf, DriveLeg, Whole, Metric, Energy;
    CleanBefore(p.inst, p.eps, r, m + 1);
    DriveStep(p.inst, p.eps, r, m);
    LegEffect(p.inst, p.eps, DriveOf(p.inst, p.eps, r[..m]), r[m - 1], r[m], m);
    DriveOnGrid(p.inst, p.eps, u, r[..m]);
    SameOrder(DriveOf(p.inst, p.eps, r[..m]).battery, Energy(p.inst, r[m - 1], r[m]), u, p.eps);
  }

  /** On a sharp problem on which stations outlast the depot, a finished search has a route exactly when the validator
      accepts some route for the order, and no accepted route is shorter. */
  lemma ShortestAccepted(p: Problem, n: nat, r: seq<nat>)
    requires Admitted(p) && ValidProblem(p) && Sharp(p) && StationsOutlastDepot(p.inst)
    requires After(p, n).queue == [] && Known(p.inst, r) && Accepted(p.inst, p.eps, r) && CustomersOf(p.inst, r) == p.order
    ensures After(p, n).best.Some? && After(p, n).best.value.distance <= ReportOf(p.inst, p.eps, r).distance
  {
    hide After, Walk, Sharp, Solvent, ChargedInTime, StationsOutlastDepot;
    OutlastingIsInTime(p, r);
    SharpSolvent(p, r);
    NotNegative(p);
    var q := AcceptedMirrored(p, r);
    SharpExactness(p, n);
  }

  lemma NotNegative(p: Problem)
    requires Runnable(p) && Sharp(p)
    ensures p.eps >= 0.0
  {
  }
}
