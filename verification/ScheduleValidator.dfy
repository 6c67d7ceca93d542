/** The independent schedule validator, and why sampling interval endpoints is enough. */
module ScheduleValidator {
  import opened RcpspModel

  datatype Violation =
    | StateSet
    | ScheduledSet
    | InvalidMode(a: nat)
    | ModeDiffers(a: nat)
    | BadTimes(a: nat)
    | OrderBroken(b: nat, a: nat)
    | PrecedenceBroken(b: nat, a: nat)
    | StartsOutOfOrder
    | Overload(resource: nat, time: int)
    | MakespanDiffers

  /** The scheduled items in the plan's order. */
  function Ordered(x: Plan, items: seq<Item>): (r: seq<Item>) {
    OrderedBy(x.order, items)
  }

  function OrderedBy(order: seq<nat>, items: seq<Item>): (r: seq<Item>)
    ensures forall item | item in r :: item in items && item.id in order
  {
    if order == [] then []
    else
      var item := ItemOf(items, order[|order| - 1]);
      OrderedBy(order[..|order| - 1], items) + if item.Some? then [item.value] else []
  }

  predicate StartsFall(items: seq<Item>) {
    exists i, j | 0 <= i && j == i + 1 < |items| :: items[i].start > items[j].start
  }

  /** All interval endpoints. */
  function Endpoints(items: seq<Item>): seq<int> {
    if items == [] then []
    else Endpoints(items[..|items| - 1]) + [items[|items| - 1].start, items[|items| - 1].end]
  }

  predicate MisplacedPredecessor(order: seq<nat>, b: nat, a: nat) {
    var before, at := PositionOf(order, b), PositionOf(order, a);
    (if before.Some? then before.value else |order|) >= (if at.Some? then at.value else -1)
  }

  /** When a violation is to be reported. */
  ghost predicate Violated(p: Project, s: Schedule, v: Violation)
    requires ValidSchedule(s)
  {
    match v
    case StateSet => exists a: nat :: a in s.plan.order <==> a !in p.activities
    case ScheduledSet => exists a: nat :: ItemOf(s.items, a).Some? <==> a !in p.activities
    case InvalidMode(a) => a in p.activities && ModeOf(p, s.plan, a).None?
    case ModeDiffers(a) => Checked(p, s, a) && ItemOf(s.items, a).value.mode != ModeIndex(s.plan, a).value
    case BadTimes(a) =>
      Checked(p, s, a) && (ItemOf(s.items, a).value.start < 0 ||
        ItemOf(s.items, a).value.end != ItemOf(s.items, a).value.start + ModeOf(p, s.plan, a).value.duration)
    case OrderBroken(b, a) => Checked(p, s, a) && b in p.activities[a].predecessors && MisplacedPredecessor(s.plan.order, b, a)
    case PrecedenceBroken(b, a) =>
      Checked(p, s, a) && b in p.activities[a].predecessors && ItemOf(s.items, b).Some?
      && ItemOf(s.items, b).value.end > ItemOf(s.items, a).value.start
    case StartsOutOfOrder => StartsFall(Ordered(s.plan, s.items))
    case Overload(r, t) => r < |p.capacities| && t in Endpoints(s.items) && Demand(p, s.plan, s.items, r, t) > p.capacities[r]
    case MakespanDiffers => s.makespan != LastEnd(s.items)
  }

  /** An activity with a usable mode and a scheduled item: only these are looked at further. */
  predicate Checked(p: Project, s: Schedule, a: nat)
    requires |s.plan.modes| == |s.plan.order|
  {
    a in p.activities && ModeOf(p, s.plan, a).Some? && ItemOf(s.items, a).Some?
  }

  predicate About(v: Violation, a: nat) {
    match v
    case InvalidMode(x) => x == a
    case ModeDiffers(x) => x == a
    case BadTimes(x) => x == a
    case OrderBroken(_, x) => x == a
    case PrecedenceBroken(_, x) => x == a
    case _ => false
  }

  // ---- the validator's loops -------------------------------------------------------------------------------

  method CheckActivity(p: Project, s: Schedule, a: nat) returns (violations: seq<Violation>)
    requires ValidSchedule(s) && a in p.activities
    ensures forall v :: v in violations <==> About(v, a) && Violated(p, s, v)
  {
    violations := [];
    var mode := ModeOf(p, s.plan, a);
    if mode.None? {
      return [InvalidMode(a)];
    }
    var item := ItemOf(s.items, a);
    if item.None? {
      return;
    }
    if item.value.mode != ModeIndex(s.plan, a).value {
      violations := violations + [ModeDiffers(a)];
    }
    if item.value.start < 0 || item.value.end != item.value.start + mode.value.duration {
      violations := violations + [BadTimes(a)];
    }
    var predecessors := p.activities[a].predecessors;
    for i := 0 to |predecessors|
      invariant forall v :: v in violations <==>
        About(v, a) && Violated(p, s, v)
        && (v.OrderBroken? || v.PrecedenceBroken? ==> v.b in predecessors[..i])
    {
      var b := predecessors[i];
      assert predecessors[..i + 1] == predecessors[..i] + [b];
      if MisplacedPredecessor(s.plan.order, b, a) {
        violations := violations + [OrderBroken(b, a)];
      }
      var before := ItemOf(s.items, b);
      if before.Some? && before.value.end > item.value.start {
        violations := violations + [PrecedenceBroken(b, a)];
      }
    }
    assert predecessors[..|predecessors|] == predecessors;
  }

  method CheckResources(p: Project, s: Schedule) returns (violations: seq<Violation>)
    requires ValidSchedule(s)
    ensures forall v :: v in violations <==> v.Overload? && Violated(p, s, v)
  {
    hide Demand, Endpoints;
    violations := [];
    var times := Endpoints(s.items);
    for i := 0 to |times|
      invariant forall v :: v in violations <==> v.Overload? && Violated(p, s, v) && v.time in times[..i]
    {
      var time := times[i];
      assert times[..i + 1] == times[..i] + [time];
      for r := 0 to |p.capacities|
        invariant forall v :: v in violations <==>
          v.Overload? && Violated(p, s, v) && (v.time in times[..i] || (v.time == time && v.resource < r))
      {
        var demand := SumDemand(p, s, r, time);
        if demand > p.capacities[r] {
          violations := violations + [Overload(r, time)];
        }
      }
    }
    assert times[..|times|] == times;
  }

  method SumDemand(p: Project, s: Schedule, r: nat, time: int) returns (demand: nat)
    requires ValidSchedule(s)
    ensures demand == Demand(p, s.plan, s.items, r, time)
  {
    demand := 0;
    assert s.items[..0] == [];
    for i := 0 to |s.items|
      invariant demand == Demand(p, s.plan, s.items[..i], r, time)
    {
      assert s.items[..i + 1][..i] == s.items[..i];
      demand := demand + ItemDemand(p, s.plan, s.items[i], r, time);
    }
    assert s.items[..|s.items|] == s.items;
  }

  /** The report lists exactly what is wrong. */
  method ValidateSchedule(p: Project, s: Schedule) returns (violations: seq<Violation>, makespan: int)
    requires ValidSchedule(s)
    ensures forall v :: v in violations <==> Violated(p, s, v)
    ensures makespan == LastEnd(s.items)
  {
    hide Violated, AboutSome, Ordered, StartsFall, LastEnd;
    violations := [];
    if (set a | a in s.plan.order) != p.activities.Keys {
      violations := violations + [StateSet];
    }
    if (set item | item in s.items :: item.id) != p.activities.Keys {
      violations := violations + [ScheduledSet];
    }
    WholeSchedule(p, s);
    var more := CheckActivities(p, s);
    violations := violations + more;
    EveryoneAsked(p, s);
    if StartsFall(Ordered(s.plan, s.items)) {
      violations := violations + [StartsOutOfOrder];
    }
    var overloads := CheckResources(p, s);
    violations := violations + overloads;
    makespan := LastEnd(s.items);
    if s.makespan != makespan {
      violations := violations + [MakespanDiffers];
    }
  }

  /** A violation by one of the activities of the project. */
  ghost predicate AboutSome(p: Project, v: Violation) {
    exists a | a in p.activities :: About(v, a)
  }

  /** The activities one by one, in any order. */
  method CheckActivities(p: Project, s: Schedule) returns (violations: seq<Violation>)
    requires ValidSchedule(s)
    ensures forall v :: v in violations <==> Violated(p, s, v) && AboutSome(p, v)
  {
    hide Violated, About;
    violations := [];
    var todo := p.activities.Keys;
    while todo != {}
      invariant todo <= p.activities.Keys
      invariant forall v :: v in violations <==> Violated(p, s, v) && exists a | a in p.activities && a !in todo :: About(v, a)
      decreases todo
    {
      var a :| a in todo;
      todo := todo - {a};
      var more := CheckActivity(p, s, a);
      violations := violations + more;
    }
  }

  lemma WholeSchedule(p: Project, s: Schedule)
    requires ValidSchedule(s)
    ensures Violated(p, s, StateSet) <==> (set a | a in s.plan.order) != p.activities.Keys
    ensures Violated(p, s, ScheduledSet) <==> (set item | item in s.items :: item.id) != p.activities.Keys
    ensures Violated(p, s, StartsOutOfOrder) <==> StartsFall(Ordered(s.plan, s.items))
    ensures Violated(p, s, MakespanDiffers) <==> s.makespan != LastEnd(s.items)
  {
  }

  lemma EveryoneAsked(p: Project, s: Schedule)
    requires ValidSchedule(s)
    ensures forall v | Violated(p, s, v) :: AboutSome(p, v) <==>
      !(v.StateSet? || v.ScheduledSet? || v.StartsOutOfOrder? || v.Overload? || v.MakespanDiffers?)
  {
    forall v | Violated(p, s, v) && !(v.StateSet? || v.ScheduledSet? || v.StartsOutOfOrder? || v.Overload? || v.MakespanDiffers?)
      ensures AboutSome(p, v)
    {
      assert About(v, v.a);
    }
  }
}
