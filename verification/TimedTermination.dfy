/** Termination at every tolerance: on separated stations the due dates leave time for finitely many moves between
    stations, so every walk of the extension rule is short and the search halts. */
module TimedTermination {
  import opened EvrptwModel
  import opened PriorityQueue
  import opened ChargingSearch
  import opened ChargingExactness
  import opened ChargingTermination
  import opened SearchMeasure

  ghost predicate Halts(p: Problem)
    requires Runnable(p)
  {
    exists n: nat :: After(p, n).queue == []
  }

  // ---- the shortest hop between stations -----------------------------------------------------------------

  lemma {:induction false} SomeHop(inst: Instance, a: nat, n: nat) returns (hop: real)
    requires Separated(inst) && IsStation(inst, a) && n <= |inst.nodes|
    ensures hop > 0.0 && forall b: nat | b < n && IsStation(inst, b) && b != a :: hop <= inst.dist(a, b)
  {
    if n == 0 {
      hop := 1.0;
    } else {
      hop := SomeHop(inst, a, n - 1);
      if IsStation(inst, n - 1) && n - 1 != a && inst.dist(a, n - 1) < hop { hop := inst.dist(a, n - 1); }
    }
  }

  lemma {:induction false} LeastHop(inst: Instance, n: nat) returns (hop: real)
    requires Separated(inst) && n <= |inst.nodes|
    ensures hop > 0.0
    ensures forall a: nat, b: nat | a < n && IsStation(inst, a) && IsStation(inst, b) && a != b :: hop <= inst.dist(a, b)
  {
    if n == 0 {
      hop := 1.0;
    } else {
      hop := LeastHop(inst, n - 1);
      if IsStation(inst, n - 1) {
        var own := SomeHop(inst, n - 1, |inst.nodes|);
        if own < hop { hop := own; }
      }
    }
  }

  lemma {:induction false} LatestDue(inst: Instance, n: nat) returns (due: real)
    requires n <= |inst.nodes|
    ensures forall i | 0 <= i < n :: inst.nodes[i].due <= due
  {
    if n == 0 {
      due := 0.0;
    } else {
      due := LatestDue(inst, n - 1);
      if inst.nodes[n - 1].due > due { due := inst.nodes[n - 1].due; }
    }
  }

  // ---- walks take time -------------------------------------------------------------------------------------

  /** Moves from a station straight to another one. */
  function Hops(inst: Instance, path: seq<nat>): (h: nat) {
    var n := |path|;
    if n <= 1 then 0
    else Hops(inst, path[..n - 1]) + if IsStation(inst, path[n - 2]) && IsStation(inst, path[n - 1]) then 1 else 0
  }

  /** Time that negative service could give back over the first `k` customers. */
  function Credit(p: Problem, k: nat): (c: real)
    requires Runnable(p) && k <= |p.order|
    ensures c >= 0.0
  {
    if k == 0 then 0.0 else Credit(p, k - 1) + Max(0.0, -p.inst.nodes[p.order[k - 1]].service)
  }

  lemma {:induction false} CreditGrows(p: Problem, j: nat, k: nat)
    requires Runnable(p) && j <= k <= |p.order|
    ensures Credit(p, j) <= Credit(p, k)
    decreases k
  {
    if j < k { CreditGrows(p, j, k - 1); }
  }

  /** What a leg does to the clock and to the battery. */
  lemma LegTakesTime(p: Problem, l: Label, k: Key)
    requires ValidProblem(p) && k.1 < |p.inst.nodes| && l.battery <= p.inst.vehicle.battery
    requires Extend(p, l, k.1, k.0).Some?
    ensures var m := Extend(p, l, k.1, k.0).value;
      && m.battery <= p.inst.vehicle.battery && m.progress == k.0 && m.node == k.1
      && (IsStation(p.inst, k.1) ==>
            m.time >= l.time + Travel(p.inst, l.node, k.1) && m.time <= p.inst.nodes[k.1].due + p.eps)
      && (!IsCustomer(p.inst, k.1) ==> m.time >= l.time)
      && (IsCustomer(p.inst, k.1) ==> m.time >= l.time - Max(0.0, -p.inst.nodes[k.1].service))
  {
    hide Energy, Travel, Metric;
    LegNonNegative(p.inst, l.node, k.1);
    ChargeNonNegative(p.inst.vehicle, Max(0.0, l.battery - Energy(p.inst, l.node, k.1)));
  }

  /** Clock, hops and length of a walk. */
  ghost predicate Timed(p: Problem, hop: real, latest: real, path: seq<nat>, l: Label)
    requires Runnable(p)
  {
    && path != [] && path[|path| - 1] == l.node && l.node < |p.inst.nodes| && l.progress <= |p.order|
    && l.battery <= p.inst.vehicle.battery
    && l.time + Credit(p, l.progress) >= Hops(p.inst, path) as real * hop
    && (Hops(p.inst, path) > 0 ==> Hops(p.inst, path) as real * hop <= latest + Credit(p, |p.order|))
  }

  lemma HopTakes(inst: Instance, hop: real, a: nat, b: nat)
    requires WellFormed(inst) && hop <= inst.dist(a, b) * (1.0 / inst.vehicle.velocity)
    ensures hop <= Travel(inst, a, b)
  {
    assert inst.dist(a, b) / inst.vehicle.velocity == inst.dist(a, b) * (1.0 / inst.vehicle.velocity);
  }

  /** One more move of a walk that is not complete. */
  lemma MoveTimed(p: Problem, hop: real, latest: real, path: seq<nat>, l: Label, dest: nat)
    requires ValidProblem(p) && Timed(p, hop, latest, path, l) && dest < |p.inst.nodes| && hop > 0.0
    requires Offered(p, l, (NextProgress(p, l, dest), dest))
    requires IsStation(p.inst, l.node) && IsStation(p.inst, dest) ==> hop <= Travel(p.inst, l.node, dest)
    requires p.inst.nodes[dest].due + p.eps <= latest
    requires Extend(p, l, dest, NextProgress(p, l, dest)).Some?
    ensures Timed(p, hop, latest, path + [dest], Extend(p, l, dest, NextProgress(p, l, dest)).value)
  {
    hide Extend, Travel, Metric, Offered, Hops, Credit, IsTerminal, NextProgress;
    var k := (NextProgress(p, l, dest), dest);
    var m, h := Extend(p, l, dest, k.0).value, Hops(p.inst, path);
    HopsStep(p.inst, path, dest);
    MoveKinds(p, l, dest);
    LegTakesTime(p, l, k);
    CreditGrows(p, k.0, |p.order|);
    CreditStep(p, l.progress);
    TimesOnward(h, hop);
    if IsStation(p.inst, l.node) && IsStation(p.inst, dest) {
      assert m.time + Credit(p, k.0) >= (h + 1) as real * hop;
    } else {
      assert m.time + Credit(p, k.0) >= h as real * hop;
    }
  }

  lemma TimesOnward(h: nat, hop: real)
    ensures (h + 1) as real * hop == h as real * hop + hop
  {
  }

  lemma HopsStep(inst: Instance, path: seq<nat>, dest: nat)
    requires path != []
    ensures Hops(inst, path + [dest])
      == Hops(inst, path) + if IsStation(inst, path[|path| - 1]) && IsStation(inst, dest) then 1 else 0
  {
    assert (path + [dest])[..|path|] == path;
  }

  lemma CreditStep(p: Problem, k: nat)
    requires Runnable(p) && k <= |p.order|
    ensures k < |p.order| ==> Credit(p, k + 1) == Credit(p, k) + Max(0.0, -p.inst.nodes[p.order[k]].service)
  {
  }

  /** A move serves the next customer, goes to a station, or ends at the depot. */
  lemma MoveKinds(p: Problem, l: Label, dest: nat)
    requires ValidProblem(p) && l.progress <= |p.order| && dest < |p.inst.nodes|
    requires Offered(p, l, (NextProgress(p, l, dest), dest))
    ensures var next := NextProgress(p, l, dest);
      && next <= |p.order| && (IsCustomer(p.inst, dest) <==> next == l.progress + 1)
      && (next == l.progress + 1 ==> l.progress < |p.order| && p.order[l.progress] == dest)
      && (next != l.progress + 1 ==> next == l.progress)
      && (dest == l.node ==> !IsStation(p.inst, dest))
      && (IsTerminal(p, next, dest) || IsStation(p.inst, dest) || IsCustomer(p.inst, dest))
  {
  }

  lemma {:induction false} WalkTimed(p: Problem, hop: real, latest: real, path: seq<nat>)
    requires ValidProblem(p) && Walk(p, path).Some? && hop > 0.0 && latest >= 0.0
    requires forall a, b | IsStation(p.inst, a) && IsStation(p.inst, b) && a != b :: hop <= Travel(p.inst, a, b)
    requires forall i | 0 <= i < |p.inst.nodes| :: p.inst.nodes[i].due + p.eps <= latest
    ensures Timed(p, hop, latest, path, Walk(p, path).value)
  {
    hide Extend, Travel, Offered, Complete, Metric;
    if |path| == 1 {
      StartTimed(p, hop, latest);
      assert path == [p.inst.depot];
    } else {
      var prefix, dest := path[..|path| - 1], path[|path| - 1];
      WalkTimed(p, hop, latest, prefix);
      assert path == prefix + [dest];
      MoveKinds(p, Walk(p, prefix).value, dest);
      MoveTimed(p, hop, latest, prefix, Walk(p, prefix).value, dest);
    }
  }

  lemma StartTimed(p: Problem, hop: real, latest: real)
    requires ValidProblem(p)
    ensures Timed(p, hop, latest, [p.inst.depot], Initial(p))
  {
  }

  // ---- walks are short ---------------------------------------------------------------------------------------

  /** Every customer and every hop allows a path two and one more nodes. */
  lemma {:induction false} WalkShort(p: Problem, path: seq<nat>)
    requires ValidProblem(p) && Walk(p, path).Some? && !Complete(p, Walk(p, path).value)
    ensures var l := Walk(p, path).value;
      && l.progress <= |p.order| && path[|path| - 1] == l.node
      && |path| + (if IsStation(p.inst, l.node) then 0 else 1) <= 2 + 2 * l.progress + Hops(p.inst, path)
  {
    hide Extend, Metric, Offered;
    if |path| > 1 {
      var prefix, dest := path[..|path| - 1], path[|path| - 1];
      WalkShort(p, prefix);
      var l := Walk(p, prefix).value;
      MoveKinds(p, l, dest);
      ExtensionShape(p, l, (NextProgress(p, l, dest), dest));
    }
  }

  lemma ExtensionShape(p: Problem, l: Label, k: Key)
    requires Runnable(p) && k.1 < |p.inst.nodes|
    ensures var e := Extend(p, l, k.1, k.0); e.Some? ==> KeyOf(e.value) == k && e.value.path == l.path + [k.1]
  {
  }

  lemma HopBound(hops: nat, hop: real, room: real)
    requires hop > 0.0 && room >= 0.0 && (hops > 0 ==> hops as real * hop <= room)
    ensures hops <= (room / hop).Floor
  {
    if hops > 0 { DivMono(hops as real * hop, room, hop); }
    assert hops as real * hop / hop == hops as real;
  }

  /** The least time between two stations, and the latest time at which anything can be reached. */
  lemma Clock(p: Problem) returns (hop: real, latest: real)
    requires ValidProblem(p) && Separated(p.inst)
    ensures hop > 0.0 && latest >= 0.0
    ensures forall a, b | IsStation(p.inst, a) && IsStation(p.inst, b) && a != b :: hop <= Travel(p.inst, a, b)
    ensures forall i | 0 <= i < |p.inst.nodes| :: p.inst.nodes[i].due + p.eps <= latest
  {
    hide Travel, Separated;
    var least := LeastHop(p.inst, |p.inst.nodes|);
    var due := LatestDue(p.inst, |p.inst.nodes|);
    hop, latest := least * (1.0 / p.inst.vehicle.velocity), Max(0.0, due + p.eps);
    forall a, b | IsStation(p.inst, a) && IsStation(p.inst, b) && a != b ensures hop <= Travel(p.inst, a, b) {
      MulMono(least, p.inst.dist(a, b), 1.0 / p.inst.vehicle.velocity);
      HopTakes(p.inst, hop, a, b);
    }
  }

  lemma WalkWithin(p: Problem, hop: real, latest: real, path: seq<nat>)
    requires ValidProblem(p) && Walk(p, path).Some? && !Complete(p, Walk(p, path).value) && hop > 0.0 && latest >= 0.0
    requires forall a, b | IsStation(p.inst, a) && IsStation(p.inst, b) && a != b :: hop <= Travel(p.inst, a, b)
    requires forall i | 0 <= i < |p.inst.nodes| :: p.inst.nodes[i].due + p.eps <= latest
    ensures |path| <= 2 + 2 * |p.order| + ((latest + Credit(p, |p.order|)) / hop).Floor
  {
    hide Walk, Complete, Metric, Travel, Hops, Credit;
    WalkTimed(p, hop, latest, path);
    WalkShort(p, path);
    HopBound(Hops(p.inst, path), hop, latest + Credit(p, |p.order|));
  }

  /** Some length that no unfinished walk exceeds. */
  lemma WalksBounded(p: Problem) returns (depth: nat)
    requires ValidProblem(p) && Separated(p.inst)
    ensures depth > 0
    ensures forall path | Walk(p, path).Some? && !Complete(p, Walk(p, path).value) :: |path| <= depth
  {
    hide Walk, Complete, Metric, Travel, Separated, Credit;
    var hop, latest := Clock(p);
    var room := latest + Credit(p, |p.order|);
    HopBound(0, hop, room);
    depth := 2 + 2 * |p.order| + (room / hop).Floor;
    forall path | Walk(p, path).Some? && !Complete(p, Walk(p, path).value) ensures |path| <= depth {
      WalkWithin(p, hop, latest, path);
    }
  }

  // ---- the theorem -------------------------------------------------------------------------------------------

  lemma PoppedShort(p: Problem, n: nat, depth: nat)
    requires ValidProblem(p) && After(p, n).queue != []
    requires forall path | Walk(p, path).Some? && !Complete(p, Walk(p, path).value) :: |path| <= depth
    ensures |After(p, n).queue[MinIndex(After(p, n).queue)].item.path| <= depth
  {
    hide Walk, Complete, After;
    AlwaysSound(p, n);
    var q := After(p, n).queue;
    assert q[MinIndex(q)] in q;
  }

  lemma {:induction false} WeightFalls(p: Problem, depth: nat, n: nat)
    requires ValidProblem(p) && depth > 0
    requires forall path | Walk(p, path).Some? && !Complete(p, Walk(p, path).value) :: |path| <= depth
    ensures After(p, n).queue == [] || Mass(p, depth, After(p, n).queue) + n <= TurnsWithin(p, depth)
  {
    hide Mass, Walk, Complete, TurnsWithin, Start;
    if n == 0 {
      StartWeighs(p, depth);
    } else {
      WeightFalls(p, depth, n - 1);
      if After(p, n - 1).queue != [] {
        PoppedShort(p, n - 1, depth);
        IterateLighter(p, depth, After(p, n - 1));
      }
    }
  }

  /** At every tolerance the search of a valid problem on separated stations halts. */
  lemma Terminates(p: Problem)
    requires ValidProblem(p) && Separated(p.inst)
    ensures Halts(p)
  {
    hide Mass, Walk, Complete, TurnsWithin, After;
    var depth := WalksBounded(p);
    WeightFalls(p, depth, TurnsWithin(p, depth) + 1);
  }
}
