/** Resource-constrained project scheduling: activities with modes, states and schedules. */
module RcpspModel {
  import opened Options
  import opened Counting

  datatype Mode = Mode(duration: nat, demands: seq<nat>)

  datatype Activity = Activity(predecessors: seq<nat>, modes: seq<Mode>)

  /** Activities by identifier, and the capacity of every resource. */
  datatype Project = Project(activities: map<nat, Activity>, capacities: seq<nat>)

  /** An order of activities with one mode each. */
  datatype Plan = Plan(order: seq<nat>, modes: seq<nat>)

  datatype Item = Item(id: nat, mode: int, start: int, end: int)

  datatype Schedule = Schedule(plan: Plan, items: seq<Item>, makespan: nat)

  /** What the constructors check. */
  ghost predicate ValidProject(p: Project) {
    && (forall a | a in p.activities :: ValidActivity(p, a))
    && p.capacities != [] && p.activities != map[]
  }

  ghost predicate ValidActivity(p: Project, a: nat)
    requires a in p.activities
  {
    var activity := p.activities[a];
    && Distinct(activity.predecessors) && a !in activity.predecessors && activity.modes != []
    && (forall b | b in activity.predecessors :: b in p.activities)
    && (forall m | 0 <= m < |activity.modes| :: |activity.modes[m].demands| == |p.capacities|)
  }

  ghost predicate ValidPlan(x: Plan) { x.order != [] && Distinct(x.order) && |x.modes| == |x.order| }

  ghost predicate ValidItems(items: seq<Item>) { forall i, j | 0 <= i < j < |items| :: items[i].id != items[j].id }

  ghost predicate ValidSchedule(s: Schedule) { ValidPlan(s.plan) && ValidItems(s.items) }

  /** Where an activity stands in the order. */
  function PositionOf(order: seq<nat>, a: nat): (r: Option<nat>)
    ensures r.Some? ==> r.value < |order| && order[r.value] == a
    ensures r.None? ==> a !in order
  {
    if order == [] then None
    else if order[|order| - 1] == a then Some(|order| - 1)
    else PositionOf(order[..|order| - 1], a)
  }

  lemma PositionUnique(order: seq<nat>, i: nat)
    requires Distinct(order) && i < |order|
    ensures PositionOf(order, order[i]) == Some(i)
  {
  }

  function ModeIndex(x: Plan, a: nat): Option<nat>
    requires |x.modes| == |x.order|
  {
    match PositionOf(x.order, a)
    case None => None
    case Some(i) => Some(x.modes[i])
  }

  /** The mode a plan gives an activity, if it has one. */
  function ModeOf(p: Project, x: Plan, a: nat): (r: Option<Mode>)
    requires |x.modes| == |x.order|
    ensures r.Some? ==> a in p.activities && r.value in p.activities[a].modes
  {
    if a !in p.activities then None
    else
      match ModeIndex(x, a)
      case None => None
      case Some(m) => if m < |p.activities[a].modes| then Some(p.activities[a].modes[m]) else None
  }

  /** The scheduled item of an activity. */
  function ItemOf(items: seq<Item>, a: nat): (r: Option<Item>)
    ensures r.Some? ==> r.value in items && r.value.id == a
    ensures r.None? ==> forall i | 0 <= i < |items| :: items[i].id != a
  {
    if items == [] then None
    else if items[|items| - 1].id == a then Some(items[|items| - 1])
    else ItemOf(items[..|items| - 1], a)
  }

  predicate Active(item: Item, time: int) { item.start <= time < item.end }

  /** What an item asks of a resource at a time. */
  function ItemDemand(p: Project, x: Plan, item: Item, resource: nat, time: int): nat
    requires |x.modes| == |x.order|
  {
    var mode := ModeOf(p, x, item.id);
    if Active(item, time) && mode.Some? && resource < |mode.value.demands| then mode.value.demands[resource] else 0
  }

  function Demand(p: Project, x: Plan, items: seq<Item>, resource: nat, time: int): nat
    requires |x.modes| == |x.order|
  {
    if items == [] then 0
    else Demand(p, x, items[..|items| - 1], resource, time) + ItemDemand(p, x, items[|items| - 1], resource, time)
  }

  function LastEnd(items: seq<Item>): int {
    if items == [] then 0
    else if |items| == 1 then items[0].end
    else
      var front := LastEnd(items[..|items| - 1]);
      if items[|items| - 1].end > front then items[|items| - 1].end else front
  }

  lemma {:induction false} LastEndIsLargest(items: seq<Item>)
    requires items != []
    ensures forall i | 0 <= i < |items| :: items[i].end <= LastEnd(items)
    ensures exists i | 0 <= i < |items| :: items[i].end == LastEnd(items)
  {
    if |items| > 1 {
      var front := items[..|items| - 1];
      LastEndIsLargest(front);
      var i :| 0 <= i < |front| && front[i].end == LastEnd(front);
      assert items[i].end == LastEnd(front);
      assert forall j | 0 <= j < |front| :: items[j] == front[j];
      assert items[|items| - 1].end == LastEnd(items) || items[i].end == LastEnd(items);
    } else {
      assert items[0].end == LastEnd(items);
    }
  }
}
