/** Why endpoint checks suffice, why a screened plan always has a schedule within the horizon, and why the precedence
    bound is a lower bound. */
module ScheduleEnvelope {
  import opened Options
  import opened Counting
  import opened RcpspModel
  import opened ScheduleValidator

  // ---- endpoints suffice -----------------------------------------------------------------------------------

  /** Whatever runs at `later` also runs at `earlier`. */
  lemma {:induction false} DemandFalls(p: Project, x: Plan, items: seq<Item>, r: nat, earlier: int, later: int)
    requires |x.modes| == |x.order|
    requires forall i | 0 <= i < |items| && Active(items[i], later) :: Active(items[i], earlier)
    ensures Demand(p, x, items, r, later) <= Demand(p, x, items, r, earlier)
  {
    if items != [] { DemandFalls(p, x, items[..|items| - 1], r, earlier, later); }
  }

  /** The last start at or before a time at which something runs. */
  lemma {:induction false} LatestStart(items: seq<Item>, time: int) returns (start: Option<int>)
    ensures start.None? ==> forall i | 0 <= i < |items| :: !(items[i].start <= time)
    ensures start.Some? ==> start.value <= time && start.value in Endpoints(items)
    ensures start.Some? ==> forall i | 0 <= i < |items| && items[i].start <= time :: items[i].start <= start.value
  {
    if items == [] {
      start := None;
    } else {
      var last := items[|items| - 1];
      start := LatestStart(items[..|items| - 1], time);
      if last.start <= time && (start.None? || last.start > start.value) {
        start := Some(last.start);
      }
    }
  }

  lemma {:induction false} NothingRuns(p: Project, x: Plan, items: seq<Item>, r: nat, time: int)
    requires |x.modes| == |x.order| && forall i | 0 <= i < |items| :: !Active(items[i], time)
    ensures Demand(p, x, items, r, time) == 0
  {
    if items != [] { NothingRuns(p, x, items[..|items| - 1], r, time); }
  }

  /** No overload at the interval endpoints means none at any time whatever. */
  lemma EndpointsSuffice(p: Project, s: Schedule, r: nat, time: int)
    requires ValidSchedule(s) && r < |p.capacities| && forall t :: !Violated(p, s, Overload(r, t))
    ensures Demand(p, s.plan, s.items, r, time) <= p.capacities[r]
  {
    hide Demand, Endpoints;
    var start := LatestStart(s.items, time);
    if start.None? {
      NothingRuns(p, s.plan, s.items, r, time);
    } else {
      DemandFalls(p, s.plan, s.items, r, start.value, time);
      assert !Violated(p, s, Overload(r, start.value));
    }
  }

  // ---- screening -------------------------------------------------------------------------------------------

  /** What screening lets through: all activities once, usable modes, precedence kept by the order, and no single
      demand above its capacity. */
  ghost predicate Screened(p: Project, x: Plan)
    requires ValidPlan(x)
  {
    && (forall a: nat :: a in x.order <==> a in p.activities)
    && (forall a | a in p.activities :: ModeOf(p, x, a).Some?)
    && (forall i, b | 0 <= i < |x.order| && x.order[i] in p.activities && b in p.activities[x.order[i]].predecessors ::
          b in x.order[..i])
    && (forall a, r | a in p.activities && ModeOf(p, x, a).Some? && 0 <= r < |p.capacities| && r < |ModeOf(p, x, a).value.demands| ::
          ModeOf(p, x, a).value.demands[r] <= p.capacities[r])
  }

  method ScreenOne(p: Project, x: Plan) returns (keep: bool)
    requires ValidProject(p) && ValidPlan(x)
    ensures keep <==> Screened(p, x)
  {
    if (set a | a in x.order) != p.activities.Keys {
      assert exists a: nat :: a in x.order <==> a !in p.activities;
      return false;
    }
    assert forall a: nat :: a in x.order <==> a in p.activities;
    for i := 0 to |x.order|
      invariant forall j | 0 <= j < i :: Fits(p, x, j)
    {
      var a := x.order[i];
      PositionUnique(x.order, i);
      var mode := ModeOf(p, x, a);
      if mode.None? {
        return false;
      }
      var predecessors := p.activities[a].predecessors;
      if exists j | 0 <= j < |predecessors| :: PositionOf(x.order, predecessors[j]).None?
           || PositionOf(x.order, predecessors[j]).value >= i {
        var j :| 0 <= j < |predecessors|
          && (PositionOf(x.order, predecessors[j]).None? || PositionOf(x.order, predecessors[j]).value >= i);
        NotBefore(x.order, i, predecessors[j]);
        assert predecessors[j] in p.activities[x.order[i]].predecessors;
        return false;
      }
      forall b | b in predecessors ensures b in x.order[..i] {
        var j :| 0 <= j < |predecessors| && predecessors[j] == b;
        assert x.order[..i][PositionOf(x.order, b).value] == b;
      }
      if exists r | 0 <= r < |p.capacities| && r < |mode.value.demands| :: mode.value.demands[r] > p.capacities[r] {
        return false;
      }
    }
    assert Screened(p, x) by { AllFit(p, x); }
    return true;
  }

  /** What screening asks of one activity. */
  ghost predicate Fits(p: Project, x: Plan, i: nat)
    requires ValidPlan(x) && i < |x.order|
  {
    var a := x.order[i];
    && a in p.activities && ModeOf(p, x, a).Some? && (forall b | b in p.activities[a].predecessors :: b in x.order[..i])
    && (forall r | 0 <= r < |p.capacities| && r < |ModeOf(p, x, a).value.demands| ::
          ModeOf(p, x, a).value.demands[r] <= p.capacities[r])
  }

  lemma AllFit(p: Project, x: Plan)
    requires ValidPlan(x) && (forall a: nat :: a in x.order <==> a in p.activities) && forall i | 0 <= i < |x.order| :: Fits(p, x, i)
    ensures Screened(p, x)
  {
    forall a | a in p.activities ensures exists i | 0 <= i < |x.order| :: x.order[i] == a && Fits(p, x, i) {
      assert a in x.order;
      var i :| 0 <= i < |x.order| && x.order[i] == a;
      assert Fits(p, x, i);
    }
  }

  lemma NotBefore(order: seq<nat>, i: nat, b: nat)
    requires Distinct(order) && i < |order|
    requires PositionOf(order, b).None? || PositionOf(order, b).value >= i
    ensures b !in order[..i]
  {
    forall k | 0 <= k < i ensures order[..i][k] != b { PositionUnique(order, k); }
  }

  // ---- the solver's model ------------------------------------------------------------------------------------

  /** Start times, by position in the plan's order. */
  type Starts = seq<int>

  function DurationAt(p: Project, x: Plan, i: nat): nat
    requires |x.modes| == |x.order| && i < |x.order|
  {
    var mode := ModeOf(p, x, x.order[i]);
    if mode.Some? then mode.value.duration else 0
  }

  /** The items a solution stands for. */
  function Items(p: Project, x: Plan, starts: Starts): (items: seq<Item>)
    requires |x.modes| == |x.order| == |starts|
    ensures |items| == |starts|
    ensures forall i | 0 <= i < |items| ::
      items[i] == Item(x.order[i], x.modes[i], starts[i], starts[i] + DurationAt(p, x, i))
  {
    seq(|starts|, i requires 0 <= i < |starts| => Item(x.order[i], x.modes[i], starts[i], starts[i] + DurationAt(p, x, i)))
  }

  /** The constraints of the model, without the horizon: precedence, the declared order of starts, and every resource at
      every time. */
  ghost predicate Satisfies(p: Project, x: Plan, starts: Starts)
    requires |x.modes| == |x.order|
  {
    && |starts| == |x.order| && (forall i | 0 <= i < |starts| :: starts[i] >= 0)
    && (forall i, j | 0 <= i < |starts| && 0 <= j < |starts| && x.order[i] in p.activities
          && x.order[j] in p.activities[x.order[i]].predecessors :: starts[j] + DurationAt(p, x, j) <= starts[i])
    && (forall i, j | 0 <= i < j < |starts| :: starts[i] <= starts[j])
    && (forall r, t | 0 <= r < |p.capacities| :: Demand(p, x, Items(p, x, starts), r, t) <= p.capacities[r])
  }

  function Horizon(p: Project, x: Plan): nat
    requires |x.modes| == |x.order|
  {
    SerialStart(p, x, |x.order|)
  }

  /** All durations before position `i`, one after the other. */
  function SerialStart(p: Project, x: Plan, i: nat): nat
    requires |x.modes| == |x.order| && i <= |x.order|
  {
    if i == 0 then 0 else SerialStart(p, x, i - 1) + DurationAt(p, x, i - 1)
  }

  function SerialStarts(p: Project, x: Plan): (s: Starts)
    requires |x.modes| == |x.order|
    ensures |s| == |x.order| && forall i | 0 <= i < |s| :: s[i] == SerialStart(p, x, i)
  {
    seq(|x.order|, i requires 0 <= i < |x.order| => SerialStart(p, x, i))
  }

  lemma {:induction false} SerialRises(p: Project, x: Plan, i: nat, j: nat)
    requires |x.modes| == |x.order| && i < j <= |x.order|
    ensures SerialStart(p, x, i) + DurationAt(p, x, i) <= SerialStart(p, x, j)
    decreases j
  {
    if i < j - 1 { SerialRises(p, x, i, j - 1); }
  }

  lemma DemandGrows(p: Project, x: Plan, items: seq<Item>, n: nat, r: nat, t: int)
    requires |x.modes| == |x.order| && n <= |items|
    ensures Demand(p, x, items[..n], r, t)
      == if n == 0 then 0 else Demand(p, x, items[..n - 1], r, t) + ItemDemand(p, x, items[n - 1], r, t)
  {
    hide ItemDemand;
    if n > 0 { assert items[..n][..n - 1] == items[..n - 1]; }
  }

  lemma SerialNext(p: Project, x: Plan, n: nat)
    requires |x.modes| == |x.order| && 0 < n <= |x.order|
    ensures SerialStart(p, x, n) == SerialStart(p, x, n - 1) + DurationAt(p, x, n - 1)
  {
  }

  /** One at a time: at most one item of a serial schedule runs at any time. */
  lemma {:induction false} SerialDemand(p: Project, x: Plan, n: nat, r: nat, t: int, capacity: nat)
    requires |x.modes| == |x.order| && n <= |x.order|
    requires forall i | 0 <= i < n :: ItemDemand(p, x, Items(p, x, SerialStarts(p, x))[i], r, t) <= capacity
    ensures Demand(p, x, Items(p, x, SerialStarts(p, x))[..n], r, t) <= capacity
    ensures t >= SerialStart(p, x, n) ==> Demand(p, x, Items(p, x, SerialStarts(p, x))[..n], r, t) == 0
  {
    hide DurationAt, ModeOf, SerialStart, Demand;
    var items := Items(p, x, SerialStarts(p, x));
    DemandGrows(p, x, items, n, r, t);
    if n > 0 {
      SerialDemand(p, x, n - 1, r, t, capacity);
      SerialNext(p, x, n);
      assert !Active(items[n - 1], t) ==> ItemDemand(p, x, items[n - 1], r, t) == 0;
    }
  }

  /** Every screened plan has a schedule: all activities in turn.  It ends exactly at the horizon. */
  lemma SerialSatisfies(p: Project, x: Plan)
    requires ValidProject(p) && ValidPlan(x) && Screened(p, x)
    ensures Satisfies(p, x, SerialStarts(p, x))
    ensures LastEnd(Items(p, x, SerialStarts(p, x))) == Horizon(p, x)
  {
    hide Demand, ModeOf, Screened, SerialStart, DurationAt;
    SerialOrder(p, x);
    forall r, t | 0 <= r < |p.capacities|
      ensures Demand(p, x, Items(p, x, SerialStarts(p, x)), r, t) <= p.capacities[r] { SerialCapacity(p, x, r, t); }
    SerialEnd(p, x);
  }

  lemma SerialOrder(p: Project, x: Plan)
    requires ValidPlan(x) && Screened(p, x)
    ensures var starts := SerialStarts(p, x);
      && (forall i, j | 0 <= i < |starts| && 0 <= j < |starts| && x.order[i] in p.activities
            && x.order[j] in p.activities[x.order[i]].predecessors :: starts[j] + DurationAt(p, x, j) <= starts[i])
      && (forall i, j | 0 <= i < j < |starts| :: starts[i] <= starts[j])
  {
    hide ModeOf, DurationAt, SerialStart;
    var starts := SerialStarts(p, x);
    forall i, j | 0 <= i < |starts| && 0 <= j < |starts| && x.order[i] in p.activities
      && x.order[j] in p.activities[x.order[i]].predecessors
      ensures starts[j] + DurationAt(p, x, j) <= starts[i]
    {
      var k :| 0 <= k < i && x.order[..i][k] == x.order[j];
      assert x.order[k] == x.order[j];
      SerialRises(p, x, j, i);
    }
    forall i, j | 0 <= i < j < |starts| ensures starts[i] <= starts[j] { SerialRises(p, x, i, j); }
  }

  lemma SerialCapacity(p: Project, x: Plan, r: nat, t: int)
    requires ValidPlan(x) && Screened(p, x) && r < |p.capacities|
    ensures Demand(p, x, Items(p, x, SerialStarts(p, x)), r, t) <= p.capacities[r]
  {
    hide Demand, ModeOf, SerialStart, DurationAt;
    var items := Items(p, x, SerialStarts(p, x));
    forall i | 0 <= i < |items| ensures ItemDemand(p, x, items[i], r, t) <= p.capacities[r] {
      assert x.order[i] in x.order;
    }
    SerialDemand(p, x, |items|, r, t, p.capacities[r]);
    assert items[..|items|] == items;
  }

  lemma SerialEnd(p: Project, x: Plan)
    requires ValidPlan(x)
    ensures LastEnd(Items(p, x, SerialStarts(p, x))) == Horizon(p, x)
  {
    hide ModeOf, DurationAt;
    var items := Items(p, x, SerialStarts(p, x));
    LastEndIsLargest(items);
    forall i | 0 <= i < |items| ensures items[i].end <= Horizon(p, x) { SerialRises(p, x, i, |items|); }
    assert items[|items| - 1].end == Horizon(p, x);
  }

  ghost predicate InHorizon(p: Project, x: Plan, starts: Starts)
    requires |x.modes| == |x.order|
  {
    |starts| == |x.order| && forall i | 0 <= i < |starts| :: 0 <= starts[i] <= starts[i] + DurationAt(p, x, i) <= Horizon(p, x)
  }

  /** The horizon cuts nothing off: for every solution there is one no longer whose times all lie within it. */
  lemma HorizonKeepsOptimum(p: Project, x: Plan, starts: Starts) returns (within: Starts)
    requires ValidProject(p) && ValidPlan(x) && Screened(p, x) && Satisfies(p, x, starts)
    ensures Satisfies(p, x, within) && LastEnd(Items(p, x, within)) <= LastEnd(Items(p, x, starts))
    ensures InHorizon(p, x, within)
  {
    hide Demand, ModeOf, Screened, DurationAt, SerialStart, LastEnd;
    SerialSatisfies(p, x);
    within := if LastEnd(Items(p, x, starts)) <= Horizon(p, x) then starts else SerialStarts(p, x);
    LastEndIsLargest(Items(p, x, within));
    assert forall i | 0 <= i < |within| :: Items(p, x, within)[i].end == within[i] + DurationAt(p, x, i);
  }

  // ---- solutions and valid schedules -----------------------------------------------------------------------------

  function ScheduleOf(p: Project, x: Plan, starts: Starts): Schedule
    requires |x.modes| == |x.order| == |starts|
  {
    var items := Items(p, x, starts);
    Schedule(x, items, if LastEnd(items) >= 0 then LastEnd(items) else 0)
  }

  lemma {:induction false} ItemAt(items: seq<Item>, i: nat)
    requires ValidItems(items) && i < |items|
    ensures ItemOf(items, items[i].id) == Some(items[i])
  {
    var n := |items| - 1;
    if i < n { ItemAt(items[..n], i); }
  }

  lemma {:induction false} OrderedItems(order: seq<nat>, items: seq<Item>)
    requires ValidItems(items) && forall i | 0 <= i < |order| :: ItemOf(items, order[i]).Some?
    ensures |OrderedBy(order, items)| == |order|
    ensures forall i | 0 <= i < |order| :: ItemOf(items, order[i]) == Some(OrderedBy(order, items)[i])
  {
    hide ItemOf, ValidItems;
    if order != [] {
      assert forall i | 0 <= i < |order| - 1 :: order[..|order| - 1][i] == order[i];
      OrderedItems(order[..|order| - 1], items);
    }
  }

  /** The solution's items, looked up by activity. */
  ghost predicate LookedUp(p: Project, x: Plan, items: seq<Item>)
    requires ValidPlan(x)
  {
    && ValidItems(items) && |items| == |x.order|
    && (forall i | 0 <= i < |x.order| :: ItemOf(items, x.order[i]) == Some(items[i]) && PositionOf(x.order, x.order[i]) == Some(i))
    && (forall a :: ItemOf(items, a).Some? ==> a in x.order)
  }

  lemma SolutionLookedUp(p: Project, x: Plan, starts: Starts)
    requires ValidPlan(x) && |starts| == |x.order|
    ensures LookedUp(p, x, Items(p, x, starts))
  {
    hide ModeOf, DurationAt, PositionOf;
    var items := Items(p, x, starts);
    assert ValidItems(items);
    forall i | 0 <= i < |items| ensures ItemOf(items, x.order[i]) == Some(items[i]) && PositionOf(x.order, x.order[i]) == Some(i) {
      ItemAt(items, i);
      PositionUnique(x.order, i);
    }
    forall a | ItemOf(items, a).Some? ensures a in x.order {
      var i :| 0 <= i < |items| && items[i] == ItemOf(items, a).value;
      assert x.order[i] == a;
    }
  }

  lemma ActivityChecks(p: Project, x: Plan, starts: Starts, v: Violation, a: nat)
    requires ValidPlan(x) && Screened(p, x) && Satisfies(p, x, starts) && LookedUp(p, x, Items(p, x, starts))
    requires About(v, a) && a in p.activities
    ensures !Violated(p, ScheduleOf(p, x, starts), v)
  {
    hide Demand, ModeOf, Endpoints, PositionOf, ItemOf;
    var items := Items(p, x, starts);
    assert a in x.order;
    var i :| 0 <= i < |x.order| && x.order[i] == a;
    match v
    case InvalidMode(_) =>
    case ModeDiffers(_) =>
    case BadTimes(_) =>
    case OrderBroken(b, _) =>
      if b in p.activities[a].predecessors {
        var j :| 0 <= j < i && x.order[..i][j] == b;
        assert x.order[j] == b;
      }
    case PrecedenceBroken(b, _) =>
      if b in p.activities[a].predecessors && ItemOf(items, b).Some? {
        var j :| 0 <= j < |x.order| && x.order[j] == b;
      }
  }

  /** Every solution of the constraints is a schedule the validator finds nothing wrong with, so the solver's result
      always passes it. */
  lemma SolutionIsValid(p: Project, x: Plan, starts: Starts, v: Violation)
    requires ValidProject(p) && ValidPlan(x) && Screened(p, x) && Satisfies(p, x, starts)
    ensures ValidSchedule(ScheduleOf(p, x, starts)) && !Violated(p, ScheduleOf(p, x, starts), v)
  {
    hide Violated, Screened, LookedUp, Demand, DurationAt;
    SolutionLookedUp(p, x, starts);
    if a :| About(v, a) && a in p.activities {
      ActivityChecks(p, x, starts, v, a);
    } else {
      WholeChecks(p, x, starts, v);
    }
    LookedUpItems(p, x, Items(p, x, starts));
  }

  lemma LookedUpItems(p: Project, x: Plan, items: seq<Item>)
    requires ValidPlan(x) && LookedUp(p, x, items)
    ensures ValidItems(items)
  {
  }

  lemma WholeChecks(p: Project, x: Plan, starts: Starts, v: Violation)
    requires ValidPlan(x) && Screened(p, x) && Satisfies(p, x, starts) && LookedUp(p, x, Items(p, x, starts))
    requires forall a | a in p.activities :: !About(v, a)
    ensures !Violated(p, ScheduleOf(p, x, starts), v)
  {
    hide Demand, ModeOf, DurationAt, Endpoints, PositionOf, ItemOf, LookedUp, OrderedBy, LastEnd, StartsFall;
    match v
    case StateSet =>
    case ScheduledSet => AllScheduled(p, x, Items(p, x, starts));
    case StartsOutOfOrder => StartsRise(p, x, starts);
    case Overload(_, _) =>
    case MakespanDiffers => MakespanSet(p, x, starts);
    case _ =>
  }

  lemma AllScheduled(p: Project, x: Plan, items: seq<Item>)
    requires ValidPlan(x) && LookedUp(p, x, items)
    ensures forall a: nat :: ItemOf(items, a).Some? <==> a in x.order
  {
    hide ItemOf, PositionOf;
    forall a: nat ensures ItemOf(items, a).Some? <==> a in x.order {
      if a in x.order { var i :| 0 <= i < |x.order| && x.order[i] == a; }
    }
  }

  lemma StartsRise(p: Project, x: Plan, starts: Starts)
    requires ValidPlan(x) && Satisfies(p, x, starts) && LookedUp(p, x, Items(p, x, starts))
    ensures !StartsFall(Ordered(x, Items(p, x, starts)))
  {
    hide ItemOf, PositionOf, Demand, DurationAt;
    OrderedItems(x.order, Items(p, x, starts));
    assert OrderedBy(x.order, Items(p, x, starts)) == Items(p, x, starts);
  }

  lemma MakespanSet(p: Project, x: Plan, starts: Starts)
    requires ValidPlan(x) && Satisfies(p, x, starts)
    ensures ScheduleOf(p, x, starts).makespan == LastEnd(Items(p, x, starts))
  {
    hide Demand, DurationAt, LastEnd;
    LastEndIsLargest(Items(p, x, starts));
    assert Items(p, x, starts)[0].end >= 0;
  }

  // ---- and back: every valid schedule is a solution ------------------------------------------------------------

  lemma {:induction false} DemandRemove(p: Project, x: Plan, items: seq<Item>, k: nat, r: nat, t: int)
    requires |x.modes| == |x.order| && k < |items|
    ensures Demand(p, x, items, r, t) == Demand(p, x, items[..k] + items[k + 1..], r, t) + ItemDemand(p, x, items[k], r, t)
  {
    hide ItemDemand;
    var n := |items| - 1;
    var rest := items[..k] + items[k + 1..];
    if k < n {
      DemandRemove(p, x, items[..n], k, r, t);
      assert rest[..|rest| - 1] == items[..n][..k] + items[..n][k + 1..];
      assert rest[|rest| - 1] == items[n];
    } else {
      assert rest == items[..n];
    }
  }

  lemma LastItem(front: seq<Item>, last: Item, a: nat)
    ensures ItemOf(front + [last], a) == if last.id == a then Some(last) else ItemOf(front, a)
  {
    assert (front + [last])[..|front|] == front;
  }

  lemma {:induction false} ItemRemoved(items: seq<Item>, k: nat, a: nat)
    requires k < |items| && items[k].id != a
    ensures ItemOf(items[..k] + items[k + 1..], a) == ItemOf(items, a)
  {
    var n := |items| - 1;
    var rest := items[..k] + items[k + 1..];
    if k < n {
      var front := items[..n][..k] + items[..n][k + 1..];
      ItemRemoved(items[..n], k, a);
      assert rest == front + [items[n]];
      LastItem(front, items[n], a);
      LastItem(items[..n], items[n], a);
      assert items == items[..n] + [items[n]];
    } else {
      assert rest == items[..n];
    }
  }

  /** Summing in the plan's order gives the same demand. */
  lemma {:induction false} DemandOrdered(p: Project, x: Plan, order: seq<nat>, items: seq<Item>, r: nat, t: int)
    requires |x.modes| == |x.order| && Distinct(order) && ValidItems(items)
    requires forall a: nat :: ItemOf(items, a).Some? <==> a in order
    ensures Demand(p, x, OrderedBy(order, items), r, t) == Demand(p, x, items, r, t)
    decreases |order|
  {
    hide ItemOf, ItemDemand;
    if order == [] {
      assert items != [] ==> ItemOf(items, items[0].id).Some?;
    } else {
      var n := |order| - 1;
      var a := order[n];
      var item := ItemOf(items, a).value;
      var k :| 0 <= k < |items| && items[k] == item;
      var rest := items[..k] + items[k + 1..];
      DemandRemove(p, x, items, k, r, t);
      RestLookedUp(items, k, order);
      DemandOrdered(p, x, order[..n], rest, r, t);
      OrderedSame(order[..n], items, rest);
      assert OrderedBy(order, items) == OrderedBy(order[..n], items) + [item];
    }
  }

  lemma RestLookedUp(items: seq<Item>, k: nat, order: seq<nat>)
    requires ValidItems(items) && k < |items| && order != [] && order[|order| - 1] == items[k].id && Distinct(order)
    requires forall a: nat :: ItemOf(items, a).Some? <==> a in order
    ensures var rest := items[..k] + items[k + 1..];
      ValidItems(rest) && (forall a: nat :: ItemOf(rest, a).Some? <==> a in order[..|order| - 1])
      && forall a: nat | a != items[k].id :: ItemOf(rest, a) == ItemOf(items, a)
  {
    hide ItemOf;
    var rest, n := items[..k] + items[k + 1..], |order| - 1;
    assert forall i | 0 <= i < |rest| :: rest[i] == items[if i < k then i else i + 1];
    forall a: nat ensures (ItemOf(rest, a).Some? <==> a in order[..n]) && (a != items[k].id ==> ItemOf(rest, a) == ItemOf(items, a)) {
      if a == items[k].id {
        assert forall i | 0 <= i < |rest| :: rest[i].id != a;
        assert forall i | 0 <= i < n :: order[i] != a;
      } else {
        ItemRemoved(items, k, a);
        assert a in order <==> a in order[..n];
      }
    }
  }

  lemma {:induction false} OrderedSame(order: seq<nat>, a: seq<Item>, b: seq<Item>)
    requires forall i | 0 <= i < |order| :: ItemOf(a, order[i]) == ItemOf(b, order[i])
    ensures OrderedBy(order, a) == OrderedBy(order, b)
  {
    if order != [] { OrderedSame(order[..|order| - 1], a, b); }
  }

  function StartsOf(s: Schedule): (starts: Starts)
    requires forall a | a in s.plan.order :: ItemOf(s.items, a).Some?
    ensures |starts| == |s.plan.order|
    ensures forall i | 0 <= i < |starts| :: starts[i] == ItemOf(s.items, s.plan.order[i]).value.start
  {
    seq(|s.plan.order|, i requires 0 <= i < |s.plan.order| => ItemOf(s.items, s.plan.order[i]).value.start)
  }

  /** What a clean report says of each activity. */
  lemma CleanItem(p: Project, s: Schedule, i: nat)
    requires ValidSchedule(s) && i < |s.plan.order| && forall v :: !Violated(p, s, v)
    ensures var a := s.plan.order[i];
      && a in p.activities && ItemOf(s.items, a).Some? && PositionOf(s.plan.order, a) == Some(i)
      && var item := ItemOf(s.items, a).value;
      && item == Item(a, s.plan.modes[i], item.start, item.start + DurationAt(p, s.plan, i)) && item.start >= 0
      && (forall b | b in p.activities[a].predecessors && ItemOf(s.items, b).Some? :: ItemOf(s.items, b).value.end <= item.start)
  {
    hide Demand, Endpoints, PositionOf, ItemOf, StartsFall, LastEnd;
    var a := s.plan.order[i];
    PositionUnique(s.plan.order, i);
    assert a in s.plan.order;
    assert !Violated(p, s, StateSet) && !Violated(p, s, ScheduledSet) && !Violated(p, s, InvalidMode(a));
    assert !Violated(p, s, ModeDiffers(a)) && !Violated(p, s, BadTimes(a));
    forall b | b in p.activities[a].predecessors && ItemOf(s.items, b).Some?
      ensures ItemOf(s.items, b).value.end <= ItemOf(s.items, a).value.start
    {
      assert !Violated(p, s, PrecedenceBroken(b, a));
    }
  }

  lemma CleanSets(p: Project, s: Schedule)
    requires ValidSchedule(s) && forall v :: !Violated(p, s, v)
    ensures forall a: nat :: a in s.plan.order <==> ItemOf(s.items, a).Some?
  {
    hide Demand, Endpoints, PositionOf, ItemOf, StartsFall, LastEnd;
    assert !Violated(p, s, StateSet) && !Violated(p, s, ScheduledSet);
  }

  lemma CleanItems(p: Project, s: Schedule)
    requires ValidSchedule(s) && (forall v :: !Violated(p, s, v)) && forall a: nat :: a in s.plan.order <==> ItemOf(s.items, a).Some?
    ensures Items(p, s.plan, StartsOf(s)) == OrderedBy(s.plan.order, s.items)
  {
    hide Violated, ItemOf, PositionOf, DurationAt;
    OrderedItems(s.plan.order, s.items);
    var items, ordered := Items(p, s.plan, StartsOf(s)), OrderedBy(s.plan.order, s.items);
    forall i | 0 <= i < |items| ensures items[i] == ordered[i] { CleanItem(p, s, i); }
  }

  lemma CleanDemand(p: Project, s: Schedule, r: nat, t: int)
    requires ValidSchedule(s) && (forall v :: !Violated(p, s, v)) && forall a: nat :: a in s.plan.order <==> ItemOf(s.items, a).Some?
    requires r < |p.capacities|
    ensures Demand(p, s.plan, OrderedBy(s.plan.order, s.items), r, t) <= p.capacities[r]
  {
    hide Violated, ItemOf, Demand;
    DemandOrdered(p, s.plan, s.plan.order, s.items, r, t);
    EndpointsSuffice(p, s, r, t);
  }

  /** Every schedule with a clean report solves the constraints, with the same makespan. */
  lemma ValidIsSolution(p: Project, s: Schedule)
    requires ValidSchedule(s) && forall v :: !Violated(p, s, v)
    ensures (forall a | a in s.plan.order :: ItemOf(s.items, a).Some?) && Satisfies(p, s.plan, StartsOf(s))
    ensures Items(p, s.plan, StartsOf(s)) == OrderedBy(s.plan.order, s.items)
    ensures LastEnd(Items(p, s.plan, StartsOf(s))) == s.makespan
  {
    hide Demand, ItemOf, OrderedBy, LastEnd, Violated, DurationAt;
    CleanSets(p, s);
    CleanItems(p, s);
    CleanPrecedence(p, s);
    CleanOrder(p, s);
    forall r, t | 0 <= r < |p.capacities| ensures Demand(p, s.plan, Items(p, s.plan, StartsOf(s)), r, t) <= p.capacities[r] {
      CleanDemand(p, s, r, t);
    }
    SameLastEnd(p, s);
  }

  lemma CleanPrecedence(p: Project, s: Schedule)
    requires ValidSchedule(s) && (forall v :: !Violated(p, s, v)) && forall a | a in s.plan.order :: ItemOf(s.items, a).Some?
    ensures var x, starts := s.plan, StartsOf(s);
      && (forall i | 0 <= i < |starts| :: starts[i] >= 0)
      && (forall i, j | 0 <= i < |starts| && 0 <= j < |starts| && x.order[i] in p.activities
            && x.order[j] in p.activities[x.order[i]].predecessors :: starts[j] + DurationAt(p, x, j) <= starts[i])
  {
    hide Violated, DurationAt, ItemOf, PositionOf;
    forall i | 0 <= i < |s.plan.order| ensures StartsOf(s)[i] >= 0 { CleanItem(p, s, i); }
    forall i, j | 0 <= i < |s.plan.order| && 0 <= j < |s.plan.order| && s.plan.order[i] in p.activities
      && s.plan.order[j] in p.activities[s.plan.order[i]].predecessors
      ensures StartsOf(s)[j] + DurationAt(p, s.plan, j) <= StartsOf(s)[i]
    {
      CleanItem(p, s, i);
      CleanItem(p, s, j);
    }
  }

  lemma {:induction false} Rising(items: seq<Item>, i: nat, j: nat)
    requires !StartsFall(items) && i <= j < |items|
    ensures items[i].start <= items[j].start
    decreases j
  {
    if i < j { Rising(items, i, j - 1); }
  }

  lemma CleanOrder(p: Project, s: Schedule)
    requires ValidSchedule(s) && (forall v :: !Violated(p, s, v)) && forall a | a in s.plan.order :: ItemOf(s.items, a).Some?
    ensures forall i, j | 0 <= i < j < |StartsOf(s)| :: StartsOf(s)[i] <= StartsOf(s)[j]
  {
    hide ItemOf, PositionOf, Demand, Endpoints, StartsFall;
    assert !Violated(p, s, StartsOutOfOrder);
    OrderedItems(s.plan.order, s.items);
    forall i, j | 0 <= i < j < |StartsOf(s)| ensures StartsOf(s)[i] <= StartsOf(s)[j] {
      Rising(OrderedBy(s.plan.order, s.items), i, j);
    }
  }

  lemma SameLastEnd(p: Project, s: Schedule)
    requires ValidSchedule(s) && (forall v :: !Violated(p, s, v)) && forall a: nat :: a in s.plan.order <==> ItemOf(s.items, a).Some?
    ensures LastEnd(OrderedBy(s.plan.order, s.items)) == s.makespan
  {
    hide ItemOf, PositionOf, Demand, Endpoints, StartsFall, LastEnd;
    assert !Violated(p, s, MakespanDiffers);
    var ordered := OrderedBy(s.plan.order, s.items);
    OrderedItems(s.plan.order, s.items);
    assert ordered[0] in s.items;
    forall j | 0 <= j < |s.items| ensures s.items[j] in ordered {
      ItemAt(s.items, j);
      var k :| 0 <= k < |s.plan.order| && s.plan.order[k] == s.items[j].id;
      assert ordered[k] == s.items[j];
    }
    SameEnds(ordered, s.items);
  }

  lemma SameEnds(a: seq<Item>, b: seq<Item>)
    requires a != [] && b != []
    requires (forall i | 0 <= i < |a| :: a[i] in b) && forall i | 0 <= i < |b| :: b[i] in a
    ensures LastEnd(a) == LastEnd(b)
  {
    hide LastEnd;
    LastEndIsLargest(a);
    LastEndIsLargest(b);
    var i :| 0 <= i < |a| && a[i].end == LastEnd(a);
    var j :| 0 <= j < |b| && b[j].end == LastEnd(b);
    assert a[i] in b && b[j] in a;
  }

  /** So a solver that is optimal within the horizon is optimal among all valid schedules of the plan, and the model is
      never infeasible for a screened plan. */
  lemma SolverIsOptimal(p: Project, x: Plan, best: Starts, s: Schedule)
    requires ValidProject(p) && ValidPlan(x) && Screened(p, x) && Satisfies(p, x, best)
    requires forall other: Starts | Satisfies(p, x, other) && InHorizon(p, x, other) ::
      LastEnd(Items(p, x, best)) <= LastEnd(Items(p, x, other))
    requires ValidSchedule(s) && s.plan == x && forall v :: !Violated(p, s, v)
    ensures LastEnd(Items(p, x, best)) <= s.makespan
  {
    hide Violated, Satisfies, Screened, LastEnd;
    ValidIsSolution(p, s);
    var within := HorizonKeepsOptimum(p, x, StartsOf(s));
  }

  /** The plan of a valid schedule names every activity, each with a usable mode and after its predecessors. */
  lemma ValidIsOrdered(p: Project, s: Schedule)
    requires ValidSchedule(s) && forall v :: !Violated(p, s, v)
    ensures forall a: nat :: a in s.plan.order <==> a in p.activities
    ensures forall a | a in p.activities :: ModeOf(p, s.plan, a).Some?
    ensures forall i, b | 0 <= i < |s.plan.order| && b in p.activities[s.plan.order[i]].predecessors :: b in s.plan.order[..i]
  {
    hide Demand, Endpoints, StartsFall, LastEnd, ModeOf, ItemOf;
    var order := s.plan.order;
    assert !Violated(p, s, StateSet) && !Violated(p, s, ScheduledSet);
    forall a: nat ensures a in order <==> a in p.activities { }
    forall a | a in p.activities ensures ModeOf(p, s.plan, a).Some? { assert !Violated(p, s, InvalidMode(a)); }
    forall i, b | 0 <= i < |order| && b in p.activities[order[i]].predecessors ensures b in order[..i] {
      assert order[i] in order && ItemOf(s.items, order[i]).Some?;
      assert !Violated(p, s, OrderBroken(b, order[i]));
      PlacedBefore(order, b, i);
    }
  }

  lemma PlacedBefore(order: seq<nat>, b: nat, i: nat)
    requires Distinct(order) && i < |order| && !MisplacedPredecessor(order, b, order[i])
    ensures b in order[..i]
  {
    var before, at := PositionOf(order, b), PositionOf(order, order[i]);
    assert at == Some(i);
    assert before.Some? && before.value < i && order[..i][before.value] == b;
  }

  // ---- the precedence bound ------------------------------------------------------------------------------------

  /** The latest of the given ends among the predecessors. */
  function LatestOf(ends: map<nat, int>, predecessors: seq<nat>): (t: int)
    requires forall b | b in predecessors :: b in ends
    ensures predecessors == [] ==> t == 0
    ensures predecessors != [] ==> exists b | b in predecessors :: t == ends[b]
    ensures forall b | b in predecessors :: ends[b] <= t
  {
    if predecessors == [] then 0
    else if |predecessors| == 1 then
      assert forall b | b in predecessors :: b == predecessors[0];
      ends[predecessors[0]]
    else
      var front := predecessors[..|predecessors| - 1];
      var last := ends[predecessors[|predecessors| - 1]];
      assert forall b | b in predecessors :: b in front || b == predecessors[|predecessors| - 1];
      var t := LatestOf(ends, front);
      if last > t then last else t
  }

  /** Ends of the first `n` activities when every activity starts as soon as its predecessors allow. */
  ghost predicate EarliestEnds(p: Project, x: Plan, ends: map<nat, int>, n: nat)
    requires |x.modes| == |x.order| && n <= |x.order|
  {
    && (forall a :: a in ends <==> a in x.order[..n])
    && (forall i | 0 <= i < n :: EarliestAt(p, x, ends, i))
  }

  ghost predicate EarliestAt(p: Project, x: Plan, ends: map<nat, int>, i: nat)
    requires |x.modes| == |x.order| && i < |x.order|
  {
    && x.order[i] in p.activities && x.order[i] in ends
    && (forall b | b in p.activities[x.order[i]].predecessors :: b in ends)
    && ends[x.order[i]] == LatestOf(ends, p.activities[x.order[i]].predecessors) + DurationAt(p, x, i)
  }

  lemma {:induction false} LatestSame(a: map<nat, int>, b: map<nat, int>, predecessors: seq<nat>)
    requires forall c | c in predecessors :: c in a && c in b && a[c] == b[c]
    ensures LatestOf(a, predecessors) == LatestOf(b, predecessors)
  {
    if |predecessors| > 1 { LatestSame(a, b, predecessors[..|predecessors| - 1]); }
  }

  /** No valid schedule of the plan ends an activity earlier. */
  lemma {:induction false} EndsBelow(p: Project, s: Schedule, ends: map<nat, int>, i: nat)
    requires ValidSchedule(s) && Screened(p, s.plan) && i < |s.plan.order| && EarliestEnds(p, s.plan, ends, |s.plan.order|)
    requires forall v :: !Violated(p, s, v)
    ensures ItemOf(s.items, s.plan.order[i]).Some? && ends[s.plan.order[i]] <= ItemOf(s.items, s.plan.order[i]).value.end
    decreases i
  {
    hide Demand, Endpoints, PositionOf, ItemOf, LatestOf, ModeOf, StartsFall, LastEnd, Violated;
    var x := s.plan;
    var a := x.order[i];
    assert a in x.order && a in p.activities;
    EndOfClean(p, s, a);
    var predecessors := p.activities[a].predecessors;
    assert EarliestAt(p, x, ends, i);
    if predecessors != [] {
      var b :| b in predecessors && LatestOf(ends, predecessors) == ends[b];
      var j :| 0 <= j < i && x.order[..i][j] == b;
      assert x.order[j] == b;
      EndsBelow(p, s, ends, j);
    }
  }

  /** In a clean schedule an activity is scheduled, lasts as long as its mode and starts after its predecessors. */
  lemma EndOfClean(p: Project, s: Schedule, a: nat)
    requires ValidSchedule(s) && a in p.activities && ModeOf(p, s.plan, a).Some? && forall v :: !Violated(p, s, v)
    ensures ItemOf(s.items, a).Some?
    ensures ItemOf(s.items, a).value.start >= 0
    ensures ItemOf(s.items, a).value.end == ItemOf(s.items, a).value.start + ModeOf(p, s.plan, a).value.duration
    ensures forall b | b in p.activities[a].predecessors && ItemOf(s.items, b).Some? ::
      ItemOf(s.items, b).value.end <= ItemOf(s.items, a).value.start
  {
    hide Demand, Endpoints, PositionOf, ItemOf, ModeOf, StartsFall, LastEnd;
    assert !Violated(p, s, ScheduledSet) && !Violated(p, s, BadTimes(a));
    forall b | b in p.activities[a].predecessors && ItemOf(s.items, b).Some?
      ensures ItemOf(s.items, b).value.end <= ItemOf(s.items, a).value.start
    {
      assert !Violated(p, s, PrecedenceBroken(b, a));
    }
  }

  /** The precedence-chain bound: earliest ends in the plan's order, and the latest of them. */
  method LowerBound(p: Project, x: Plan) returns (bound: Option<int>, ghost ends: map<nat, int>)
    requires ValidProject(p) && ValidPlan(x)
    ensures bound.None? <==> !Screened(p, x)
    ensures bound.Some? ==> EarliestEnds(p, x, ends, |x.order|)
    ensures bound.Some? ==> forall a | a in ends :: ends[a] <= bound.value
    ensures bound.Some? ==> exists a | a in ends :: ends[a] == bound.value
  {
    hide EarliestAt, LatestOf, ModeOf, DurationAt, Screened;
    ends := map[];
    var keep := ScreenOne(p, x);
    if !keep {
      return None, ends;
    }
    var earliest: map<nat, int> := map[];
    var largest: Option<int> := None;
    ghost var top: nat := 0;
    for i := 0 to |x.order|
      invariant EarliestEnds(p, x, earliest, i)
      invariant largest.None? <==> i == 0
      invariant largest.Some? ==> forall a | a in earliest :: earliest[a] <= largest.value
      invariant largest.Some? ==> top in earliest && earliest[top] == largest.value
    {
      var a := x.order[i];
      ScreenedAt(p, x, i);
      var start := LatestOf(earliest, p.activities[a].predecessors);
      var end := start + DurationAt(p, x, i);
      EarliestStep(p, x, earliest, i, end);
      earliest := earliest[a := end];
      if largest.None? || end > largest.value {
        largest, top := Some(end), a;
      }
    }
    return largest, earliest;
  }

  lemma ScreenedAt(p: Project, x: Plan, i: nat)
    requires ValidPlan(x) && Screened(p, x) && i < |x.order|
    ensures x.order[i] in p.activities && forall b | b in p.activities[x.order[i]].predecessors :: b in x.order[..i]
    ensures x.order[i] !in x.order[..i]
  {
    assert x.order[i] in x.order;
  }

  lemma EarliestStep(p: Project, x: Plan, ends: map<nat, int>, i: nat, end: int)
    requires ValidPlan(x) && i < |x.order| && EarliestEnds(p, x, ends, i) && x.order[i] !in x.order[..i]
    requires x.order[i] in p.activities && forall b | b in p.activities[x.order[i]].predecessors :: b in x.order[..i]
    requires end == LatestOf(ends, p.activities[x.order[i]].predecessors) + DurationAt(p, x, i)
    ensures EarliestEnds(p, x, ends[x.order[i] := end], i + 1)
  {
    hide LatestOf, DurationAt, ModeOf;
    var next := ends[x.order[i] := end];
    assert x.order[..i + 1] == x.order[..i] + [x.order[i]];
    forall j | 0 <= j < i + 1 ensures EarliestAt(p, x, next, j) {
      if j < i { assert EarliestAt(p, x, ends, j); }
      assert forall b | b in p.activities[x.order[j]].predecessors :: b in ends && next[b] == ends[b];
      LatestSame(ends, next, p.activities[x.order[j]].predecessors);
    }
  }

  /** The bound is at most the makespan of every valid schedule of the plan. */
  lemma BoundHolds(p: Project, s: Schedule, ends: map<nat, int>, bound: int)
    requires ValidSchedule(s) && Screened(p, s.plan) && EarliestEnds(p, s.plan, ends, |s.plan.order|)
    requires exists a | a in ends :: ends[a] == bound
    requires forall v :: !Violated(p, s, v)
    ensures bound <= s.makespan
  {
    hide Demand, Endpoints, PositionOf, ItemOf, LatestOf, ModeOf, Screened, EarliestAt;
    var a :| a in ends && ends[a] == bound;
    var i :| 0 <= i < |s.plan.order| && s.plan.order[..|s.plan.order|][i] == a;
    EndsBelow(p, s, ends, i);
    var item := ItemOf(s.items, a).value;
    LastEndIsLargest(s.items);
    assert item in s.items;
    assert !Violated(p, s, MakespanDiffers);
  }
}
