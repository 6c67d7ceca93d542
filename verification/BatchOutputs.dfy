/** The full check of a batch output, and that every output the kernel writes passes it. */
module BatchOutputs {
  import opened EvrptwModel
  import opened Counting
  import opened StableSort
  import opened ChargingSearch
  import opened ChargingExactness
  import opened RouteValidator
  import opened SearchAgreement
  import opened TimedTermination
  import opened BestSoFar
  import opened BatchReads
  import opened BatchRounds
  import opened BatchKernel

  /** The order a batch keeps as routes finish is the sorted order. */
  lemma RecordedIsSorted(order: seq<nat>, rounds: seq<int>)
    ensures OrderRecorded(order, rounds) <==> order == SortedByKey(rounds, |rounds|, 1)
  {
    var sorted := SortedByKey(rounds, |rounds|, 1);
    SortedRanked(rounds, |rounds|, 1);
    assert forall i | 0 <= i < |sorted| :: sorted[i] in sorted;
    if OrderRecorded(order, rounds) {
      forall o ensures o in order <==> o in sorted {
        if o in order { var i :| 0 <= i < |order| && order[i] == o; }
      }
      RankedOnce(order, sorted, rounds);
    }
  }

  // ---- the check -----------------------------------------------------------------------------------------

  ghost predicate RequestAgrees(inst: Instance, orders: seq<seq<nat>>, batchSize: nat) {
    && inst.depot < |inst.nodes| && inst.nodes[inst.depot].kind.Depot? && batchSize > 0
    && (forall r, i | 0 <= r < |orders| && 0 <= i < |orders[r]| :: IsCustomer(inst, orders[r][i]))
  }

  predicate ExtentsAgree(out: BatchOutput, n: nat) {
    && |out.pathOffsets| == n + 1 && |out.statuses| == n && |out.reasons| == n && |out.metrics| == n
    && |out.labelCounters| == n && |out.counters| == 10
    && out.pathOffsets[0] == 0 && out.pathOffsets[n] == |out.pathIndices|
  }

  predicate CountersAgree(out: BatchOutput, n: nat, batchSize: nat)
    requires |out.counters| == 10
  {
    && out.counters[0] == n && out.counters[1] == n && out.counters[1] == out.counters[2] + out.counters[3]
    && out.counters[4] == out.counters[8] && out.counters[8] == (if n == 0 then 0 else 1) && out.counters[9] == batchSize
  }

  /** Exactly the routes that were not interrupted, each once. */
  ghost predicate Lists(order: seq<nat>, statuses: seq<Status>) {
    && Distinct(order)
    && (forall r: nat :: r in order <==> r < |statuses| && !statuses[r].InterruptedStatus?)
  }

  ghost predicate CompletionsAgree(out: BatchOutput)
    requires |out.counters| == 10
  {
    |out.completionOrder| == out.counters[2] && Lists(out.completionOrder, out.statuses)
  }

  predicate RoundsAgree(out: BatchOutput, n: nat)
    requires |out.statuses| == n
  {
    out.completionRounds == [] ||
    (&& |out.completionRounds| == n
     && (forall r | 0 <= r < n ::
          if out.statuses[r].InterruptedStatus? then out.completionRounds[r] == -1 else out.completionRounds[r] > 0)
     && SortedByKey(out.completionRounds, n, 1) == out.completionOrder)
  }

  /** Task rows cover the routes in order, chunk by chunk. */
  predicate TaskAgrees(tasks: seq<TaskRow>, t: nat, n: nat)
    requires t < |tasks|
  {
    && tasks[t].task == t && tasks[t].worker >= -1 && tasks[t].last > tasks[t].first && tasks[t].last <= n
    && tasks[t].first == (if t == 0 then 0 else tasks[t - 1].last)
    && tasks[t].submitted <= tasks[t].started <= tasks[t].finished
  }

  ghost predicate PhysicalAgrees(out: BatchOutput, n: nat)
    requires |out.statuses| == n
  {
    (out.physicalOrder == [] && out.tasks == []) ||
    (&& |out.physicalOrder| == |out.completionOrder| && out.tasks != []
     && Distinct(out.physicalOrder)
     && (forall i | 0 <= i < |out.physicalOrder| ::
          out.physicalOrder[i] < n && !out.statuses[out.physicalOrder[i]].InterruptedStatus?)
     && (forall t | 0 <= t < |out.tasks| :: TaskAgrees(out.tasks, t, n))
     && out.tasks[|out.tasks| - 1].last == n)
  }

  /** A feasible path: depot, customers in the given order with stations between, depot. */
  predicate PathAgrees(inst: Instance, order: seq<nat>, path: seq<nat>) {
    && EndsAtDepot(inst, path)
    && (forall i | 1 <= i < |path| - 1 :: path[i] < |inst.nodes| && !inst.nodes[path[i]].kind.Depot?)
    && CustomersOf(inst, path) == order
  }

  predicate Plain(m: Metrics) {
    m.distance.Finite? && m.distance.value >= 0.0 && m.energy >= 0.0 && m.charged >= 0.0 && m.chargeTime >= 0.0
  }

  predicate RowAgrees(inst: Instance, order: seq<nat>, status: Status, reason: Reason, m: Metrics, path: seq<nat>) {
    match status
    case FeasibleStatus => reason == NoReason && PathAgrees(inst, order, path) && Plain(m)
    case InfeasibleStatus =>
      reason == NoPattern && path == [] && m.distance.Infinite? && m.energy == 0.0 && m.charged == 0.0 && m.chargeTime == 0.0
    case InterruptedStatus => reason == DeadlinePassed && path == [] && m == ZERO_METRICS
  }

  predicate RouteAgrees(inst: Instance, orders: seq<seq<nat>>, out: BatchOutput, r: nat)
    requires ExtentsAgree(out, |orders|) && r < |orders|
  {
    && out.pathOffsets[r] <= out.pathOffsets[r + 1] <= |out.pathIndices|
    && RowAgrees(inst, orders[r], out.statuses[r], out.reasons[r], out.metrics[r],
                 out.pathIndices[out.pathOffsets[r]..out.pathOffsets[r + 1]])
  }

  function CompletedCount(statuses: seq<Status>): (c: nat)
    ensures c <= |statuses|
  {
    if statuses == [] then 0
    else CompletedCount(statuses[..|statuses| - 1]) + if statuses[|statuses| - 1].InterruptedStatus? then 0 else 1
  }

  /** Everything the output check demands. */
  ghost predicate ValidOutput(inst: Instance, orders: seq<seq<nat>>, out: BatchOutput, batchSize: nat) {
    && RequestAgrees(inst, orders, batchSize) && ExtentsAgree(out, |orders|) && CountersAgree(out, |orders|, batchSize)
    && CompletionsAgree(out) && RoundsAgree(out, |orders|) && PhysicalAgrees(out, |orders|)
    && (forall r | 0 <= r < |orders| :: RouteAgrees(inst, orders, out, r))
    && CompletedCount(out.statuses) == out.counters[2] && |orders| - CompletedCount(out.statuses) == out.counters[3]
  }

  // ---- the check's loops ---------------------------------------------------------------------------------

  /** The walk over a feasible path, matching its customers against the order. */
  method PathChecked(inst: Instance, order: seq<nat>, path: seq<nat>) returns (ok: bool)
    requires WellFormed(inst) && forall i | 0 <= i < |order| :: IsCustomer(inst, order[i])
    ensures ok <==> PathAgrees(inst, order, path)
  {
    if |path| < 2 || path[0] != inst.depot || path[|path| - 1] != inst.depot {
      return false;
    }
    var position := 0;
    assert path[..1] == [inst.depot];
    for i := 1 to |path| - 1
      invariant 0 <= position <= |order| && CustomersOf(inst, path[..i]) == order[..position]
      invariant forall j | 1 <= j < i :: path[j] < |inst.nodes| && !inst.nodes[path[j]].kind.Depot?
    {
      var node := path[i];
      if node >= |inst.nodes| || inst.nodes[node].kind.Depot? {
        return false;
      }
      assert path[..i + 1][..i] == path[..i];
      if inst.nodes[node].kind.Customer? {
        if position >= |order| || order[position] != node {
          CustomersGrow(inst, path, i + 1);
          return false;
        }
        assert order[..position + 1] == order[..position] + [node];
        position := position + 1;
      }
    }
    CustomersGrow(inst, path, |path| - 1);
    assert path[..|path| - 1] + [inst.depot] == path;
    assert CustomersOf(inst, path) == order[..position];
    return position == |order|;
  }

  /** The customers of a prefix open the customers of the whole. */
  lemma {:induction false} CustomersGrow(inst: Instance, path: seq<nat>, i: nat)
    requires i <= |path|
    ensures CustomersOf(inst, path[..i]) <= CustomersOf(inst, path)
    decreases |path|
  {
    if i < |path| {
      assert path[..|path| - 1][..i] == path[..i];
      CustomersGrow(inst, path[..|path| - 1], i);
    } else {
      assert path[..i] == path;
    }
  }

  /** The pass that marks each listed route as seen. */
  method MarkSeen(order: seq<nat>, n: nat) returns (ok: bool, seen: seq<bool>)
    ensures ok <==> Distinct(order) && forall i | 0 <= i < |order| :: order[i] < n
    ensures |seen| == n && (ok ==> forall r | 0 <= r < n :: seen[r] <==> r in order)
  {
    seen := seq(n, r => false);
    for i := 0 to |order|
      invariant |seen| == n && Distinct(order[..i]) && forall j | 0 <= j < i :: order[j] < n
      invariant forall r | 0 <= r < n :: seen[r] <==> r in order[..i]
    {
      if order[i] >= n || seen[order[i]] {
        if order[i] < n {
          var j :| 0 <= j < i && order[..i][j] == order[i];
          assert order[j] == order[i];
        }
        return false, seen;
      }
      seen := seen[order[i] := true];
      assert order[..i + 1] == order[..i] + [order[i]];
    }
    assert order[..|order|] == order;
    return true, seen;
  }

  method TasksChecked(tasks: seq<TaskRow>, n: nat) returns (ok: bool)
    requires tasks != []
    ensures ok <==> (forall t | 0 <= t < |tasks| :: TaskAgrees(tasks, t, n)) && tasks[|tasks| - 1].last == n
  {
    var first := 0;
    for t := 0 to |tasks|
      invariant first == if t == 0 then 0 else tasks[t - 1].last
      invariant forall s | 0 <= s < t :: TaskAgrees(tasks, s, n)
    {
      var row := tasks[t];
      if row.task != t || row.worker < -1 || row.last <= row.first || row.first != first || row.last > n
         || row.started < row.submitted || row.finished < row.started {
        assert !TaskAgrees(tasks, t, n);
        return false;
      }
      first := row.last;
    }
    return first == n;
  }

  method RowChecked(inst: Instance, orders: seq<seq<nat>>, out: BatchOutput, r: nat) returns (ok: bool)
    requires WellFormed(inst) && ExtentsAgree(out, |orders|) && r < |orders|
    requires forall i | 0 <= i < |orders[r]| :: IsCustomer(inst, orders[r][i])
    ensures ok <==> RouteAgrees(inst, orders, out, r)
  {
    var first, last := out.pathOffsets[r], out.pathOffsets[r + 1];
    if first > last || last > |out.pathIndices| {
      return false;
    }
    var m, reason, path := out.metrics[r], out.reasons[r], out.pathIndices[first..last];
    match out.statuses[r]
    case FeasibleStatus =>
      if !reason.NoReason? || !Plain(m) {
        return false;
      }
      ok := PathChecked(inst, orders[r], path);
    case InfeasibleStatus =>
      return reason.NoPattern? && first == last && m.distance.Infinite? && m.energy == 0.0 && m.charged == 0.0
             && m.chargeTime == 0.0;
    case InterruptedStatus =>
      return reason.DeadlinePassed? && first == last && m == ZERO_METRICS;
  }

  lemma Unlisted(order: seq<nat>, statuses: seq<Status>, listed: bool, seen: seq<bool>)
    requires |seen| == |statuses|
    requires listed <==> Distinct(order) && forall i | 0 <= i < |order| :: order[i] < |statuses|
    requires listed ==> forall r | 0 <= r < |statuses| :: seen[r] <==> r in order
    requires !listed || exists r | 0 <= r < |statuses| :: seen[r] == statuses[r].InterruptedStatus?
    ensures !Lists(order, statuses)
  {
    assert forall i | 0 <= i < |order| :: order[i] in order;
  }

  /** The whole check, rows counted as they pass. */
  method ValidateOutput(inst: Instance, orders: seq<seq<nat>>, out: BatchOutput, batchSize: nat) returns (ok: bool)
    requires WellFormed(inst)
    ensures ok <==> ValidOutput(inst, orders, out, batchSize)
  {
    hide RouteAgrees, Metric, TaskAgrees, SortedByKey;
    var n := |orders|;
    if batchSize == 0 || !ExtentsAgree(out, n) || !CountersAgree(out, n, batchSize) || |out.completionOrder| != out.counters[2] {
      return false;
    }
    var listed, seen := MarkSeen(out.completionOrder, n);
    if !listed || exists r | 0 <= r < n :: seen[r] == out.statuses[r].InterruptedStatus? {
      Unlisted(out.completionOrder, out.statuses, listed, seen);
      return false;
    }
    assert CompletionsAgree(out);
    if !RoundsAgree(out, n) {
      return false;
    }
    if out.physicalOrder != [] || out.tasks != [] {
      if |out.physicalOrder| != |out.completionOrder| || out.tasks == [] {
        return false;
      }
      var once, _ := MarkSeen(out.physicalOrder, n);
      if !once || exists i | 0 <= i < |out.physicalOrder| :: out.statuses[out.physicalOrder[i]].InterruptedStatus? {
        return false;
      }
      var covered := TasksChecked(out.tasks, n);
      if !covered {
        return false;
      }
    }
    assert PhysicalAgrees(out, n);
    var completed, interrupted := 0, 0;
    for r := 0 to n
      invariant forall s, i | 0 <= s < r && 0 <= i < |orders[s]| :: IsCustomer(inst, orders[s][i])
      invariant forall s | 0 <= s < r :: RouteAgrees(inst, orders, out, s)
      invariant completed == CompletedCount(out.statuses[..r]) && interrupted == r - completed
    {
      if exists i | 0 <= i < |orders[r]| :: !IsCustomer(inst, orders[r][i]) {
        return false;
      }
      var agrees := RowChecked(inst, orders, out, r);
      if !agrees {
        return false;
      }
      assert out.statuses[..r + 1][..r] == out.statuses[..r];
      if out.statuses[r].InterruptedStatus? {
        interrupted := interrupted + 1;
      } else {
        completed := completed + 1;
      }
    }
    assert out.statuses[..n] == out.statuses;
    return completed == out.counters[2] && interrupted == out.counters[3];
  }

  // ---- every output of the kernel passes ------------------------------------------------------------------

  lemma {:induction false} CompletedAreListed(order: seq<nat>, statuses: seq<Status>)
    requires Lists(order, statuses)
    ensures CompletedCount(statuses) == |order|
  {
    assert order != [] ==> order[0] in order;
    if statuses == [] {
      return;
    }
    var n, front := |statuses| - 1, statuses[..|statuses| - 1];
    if statuses[n].InterruptedStatus? {
      CompletedAreListed(order, front);
    } else {
      var k :| 0 <= k < |order| && order[k] == n;
      var rest := order[..k] + order[k + 1..];
      assert forall i | 0 <= i < |rest| :: rest[i] == order[if i < k then i else i + 1];
      assert forall r: nat :: r in order <==> r == n || r in rest;
      assert forall i | 0 <= i < |rest| :: rest[i] != n;
      CompletedAreListed(rest, front);
    }
  }

  lemma {:induction false} WalkNonNegative(p: Problem, path: seq<nat>)
    requires ValidProblem(p) && Walk(p, path).Some?
    ensures var l := Walk(p, path).value; l.distance >= 0.0 && l.energy >= 0.0 && l.charged >= 0.0 && l.chargeTime >= 0.0
  {
    hide Metric, Offered, Complete, Extend, Energy, Travel, CustomersOf;
    if |path| > 1 {
      var prefix, dest := path[..|path| - 1], path[|path| - 1];
      WalkNonNegative(p, prefix);
      WalkPlaced(p, prefix);
      LegAdds(p, Walk(p, prefix).value, (NextProgress(p, Walk(p, prefix).value, dest), dest));
    }
  }

  lemma LegAdds(p: Problem, l: Label, k: Key)
    requires ValidProblem(p) && k.1 < |p.inst.nodes| && Extend(p, l, k.1, k.0).Some?
    requires l.battery <= p.inst.vehicle.battery
    ensures var e := Extend(p, l, k.1, k.0).value;
      && e.distance >= l.distance && e.energy >= l.energy && e.charged >= l.charged && e.chargeTime >= l.chargeTime
  {
    hide Energy, Travel;
    LegNonNegative(p.inst, l.node, k.1);
    ChargeNonNegative(p.inst.vehicle, Max(0.0, l.battery - Energy(p.inst, l.node, k.1)));
  }

  /** The route reported is the first best of all the route's search has completed. */
  lemma FinalIsFirstBest(p: Problem) returns (n: nat)
    requires ValidProblem(p) && Halts(p)
    ensures After(p, n).queue == [] && After(p, n) == FinalOf(p) && FirstBest(Completions(p, n), FinalOf(p).best)
  {
    hide After, Completions, FinalOf, FirstBest;
    n :| After(p, n).queue == [];
    FinishedIsFinal(p, n);
    KeepsFirstBest(p, n);
  }

  /** The row of a finished search: infeasible exactly if it completed no route, and otherwise with the numbers the
      validator computes for the path, which it accepts, wherever the battery is never clamped. */
  lemma RowMatchesValidator(p: Problem, n: nat)
    requires Admitted(p) && ValidProblem(p) && p.eps >= 0.0 && Halts(p) && After(p, n).queue == []
    ensures var row := RowOf(FinalOf(p));
      && (row.status.InfeasibleStatus? <==> Completions(p, n) == [])
      && (row.status.FeasibleStatus? ==> Pattern(p, row.path))
      && (row.status.FeasibleStatus? && ClampFree(p, row.path) ==>
            var r := ReportOf(p.inst, p.eps, row.path);
            && r.violations == [] && CustomersOf(p.inst, row.path) == p.order
            && row.metrics == Metrics(Finite(r.distance), r.energy, r.charged, r.chargeTime))
      && row.counters == Counters(After(p, n).generated, After(p, n).expanded, After(p, n).pruned)
  {
    hide After, Completions, FinalOf, Walk, ClampFree, ReportOf, Metric;
    FinishedIsFinal(p, n);
    KeepsFirstBest(p, n);
    AlwaysSound(p, n);
    var best := FinalOf(p).best;
    if best.Some? && ClampFree(p, best.value.path) {
      PatternAccepted(p, best.value.path);
    }
  }

  /** The row of a finished search is one the check accepts. */
  lemma FinalRowAgrees(p: Problem)
    requires ValidProblem(p) && Halts(p)
    ensures var row := RowOf(FinalOf(p));
      RowAgrees(p.inst, p.order, row.status, row.reason, row.metrics, row.path) && !row.status.InterruptedStatus?
  {
    hide After, Walk, Extend, Metric, RoundsOf;
    var n: nat :| After(p, n).queue == [];
    FinishedIsFinal(p, n);
    AlwaysSound(p, n);
    var st := FinalOf(p);
    if st.best.Some? {
      var path := st.best.value.path;
      WalkPlaced(p, path);
      WalkNonNegative(p, path);
      InteriorFree(p, path);
      assert p.order[..|p.order|] == p.order;
    }
  }

  /** The stretch of the flat path array that the offsets mark for a route is its path. */
  lemma {:induction false} Stretch(paths: seq<seq<nat>>, r: nat)
    requires r < |paths|
    ensures |Flat(paths[..r])| <= |Flat(paths[..r + 1])| <= |Flat(paths)|
    ensures Flat(paths)[|Flat(paths[..r])|..|Flat(paths[..r + 1])|] == paths[r]
    decreases |paths|
  {
    var front := paths[..|paths| - 1];
    if r < |front| {
      Stretch(front, r);
      assert front[..r] == paths[..r] && front[..r + 1] == paths[..r + 1];
    } else {
      assert paths[..r + 1] == paths;
    }
  }

  lemma OrderOfCustomers(inst: Instance, eps: real, orders: seq<seq<nat>>, r: nat)
    requires BatchReady(inst, eps, orders) && r < |orders|
    ensures forall i | 0 <= i < |orders[r]| :: IsCustomer(inst, orders[r][i])
  {
    var p := ProblemOf(inst, eps, orders, r);
    assert ValidProblem(p);
    assert forall i | 0 <= i < |p.order| :: IsCustomer(p.inst, p.order[i]);
  }

  lemma RecordedLists(order: seq<nat>, rounds: seq<int>, statuses: seq<Status>)
    requires OrderRecorded(order, rounds) && |rounds| == |statuses|
    requires forall r | 0 <= r < |rounds| :: rounds[r] > 0 <==> !statuses[r].InterruptedStatus?
    ensures Lists(order, statuses)
  {
    forall i, j | 0 <= i < j < |order| ensures order[i] != order[j] { assert Earlier(rounds, order[i], order[j]); }
    forall r: nat | r in order ensures r < |statuses| && !statuses[r].InterruptedStatus? {
      var i :| 0 <= i < |order| && order[i] == r;
    }
  }

  lemma ReportedRow(inst: Instance, eps: real, orders: seq<seq<nat>>, out: BatchOutput, paths: seq<seq<nat>>, r: nat)
    requires BatchReady(inst, eps, orders) && Reports(inst, eps, orders, out, paths) && r < |orders|
    requires ExtentsAgree(out, |orders|)
    ensures RouteAgrees(inst, orders, out, r)
  {
    hide Flat, FinalOf, RoundsOf, RowOf, RowAgrees, ValidProblem, Runnable, Earlier, Metric, OrderRecorded;
    Stretch(paths, r);
    assert paths[..|paths|] == paths;
    if out.statuses[r].InterruptedStatus? {
      InterruptedAgrees(inst, orders[r]);
    } else {
      FinalRowAgrees(ProblemOf(inst, eps, orders, r));
    }
  }

  lemma InterruptedAgrees(inst: Instance, order: seq<nat>)
    ensures RowAgrees(inst, order, InterruptedStatus, DeadlinePassed, ZERO_METRICS, [])
  {
  }

  /** Whatever the deadline did, a reported output passes the full check. */
  lemma ReportedIsValid(inst: Instance, eps: real, orders: seq<seq<nat>>, batchSize: nat, out: BatchOutput, paths: seq<seq<nat>>)
    requires WellFormed(inst) && BatchReady(inst, eps, orders) && batchSize > 0
    requires Reports(inst, eps, orders, out, paths) && Counted(out, |orders|, batchSize)
    requires |out.statuses| == |orders| && PhysicalAgrees(out, |orders|)
    ensures ValidOutput(inst, orders, out, batchSize)
  {
    hide Flat, FinalOf, RoundsOf, RowOf, PhysicalAgrees, RowAgrees, ValidProblem, Earlier, SortedByKey, Metric;
    assert RequestAgrees(inst, orders, batchSize) by {
      forall r | 0 <= r < |orders| ensures forall i | 0 <= i < |orders[r]| :: IsCustomer(inst, orders[r][i]) {
        OrderOfCustomers(inst, eps, orders, r);
      }
    }
    forall r | 0 <= r < |orders| && !out.statuses[r].InterruptedStatus? ensures out.completionRounds[r] > 0 {
      assert RoundsOf(ProblemOf(inst, eps, orders, r)) > 0;
    }
    RecordedIsSorted(out.completionOrder, out.completionRounds);
    RecordedLists(out.completionOrder, out.completionRounds, out.statuses);
    CompletedAreListed(out.completionOrder, out.statuses);
    assert paths[..0] == [] && paths[..|paths|] == paths;
    FlatEmpty([]);
    forall r | 0 <= r < |orders| ensures RouteAgrees(inst, orders, out, r) {
      ReportedRow(inst, eps, orders, out, paths, r);
    }
  }
}
