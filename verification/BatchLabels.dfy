/** The native search of one route: labels in an arena with parent indices and `live` flags, proved to mirror the
    path-carrying search label by label. */
module BatchLabels {
  import opened Options
  import opened EvrptwModel
  import opened PriorityQueue
  import opened Counting
  import opened ChargingSearch

  datatype ArenaLabel = ArenaLabel(progress: nat, node: nat, time: real, battery: real, distance: real,
                                   energy: real, charged: real, chargeTime: real, parent: int, live: bool)

  /** The state of one route.  Groups are row-major over (progress, node); queue entries carry arena indices. */
  datatype RouteSearch = RouteSearch(arena: seq<ArenaLabel>, groups: seq<seq<nat>>, queue: seq<Entry<nat>>,
                                     best: Option<ArenaLabel>, generated: nat, expanded: nat, pruned: nat, serial: nat)

  /** A label without its path; dominance and comparison only read the numbers. */
  function Bare(a: ArenaLabel): Label {
    Label(a.progress, a.node, a.time, a.battery, a.distance, a.energy, a.charged, a.chargeTime, [])
  }

  function GroupCount(p: Problem): nat { Rows(|p.order| + 1, |p.inst.nodes|) }

  function GroupOf(p: Problem, progress: nat, node: nat): nat {
    RowMajor(progress, node, |p.inst.nodes|)
  }

  predicate KeyInRange(p: Problem, k: Key) { k.0 <= |p.order| && k.1 < |p.inst.nodes| }

  lemma GroupBound(p: Problem, k: Key)
    requires KeyInRange(p, k)
    ensures GroupOf(p, k.0, k.1) < GroupCount(p)
  {
    RowMajorBound(k.0, k.1, |p.order| + 1, |p.inst.nodes|);
  }

  lemma GroupsApart(p: Problem, k: Key, k': Key)
    requires KeyInRange(p, k) && KeyInRange(p, k') && k != k'
    ensures GroupOf(p, k.0, k.1) != GroupOf(p, k'.0, k'.1)
  {
    if GroupOf(p, k.0, k.1) == GroupOf(p, k'.0, k'.1) {
      RowMajorInjective(k.0, k.1, k'.0, k'.1, |p.inst.nodes|);
    }
  }

  function RootLabel(p: Problem): ArenaLabel
    requires p.inst.depot < |p.inst.nodes|
  {
    ArenaLabel(0, p.inst.depot, Max(0.0, p.inst.nodes[p.inst.depot].ready), p.inst.vehicle.battery,
               0.0, 0.0, 0.0, 0.0, -1, true)
  }

  function StartRoute(p: Problem): RouteSearch
    requires p.inst.depot < |p.inst.nodes|
  {
    var root := RootLabel(p);
    RouteSearch([root],
                seq(GroupCount(p), i => if i == GroupOf(p, 0, p.inst.depot) then [0] else []),
                [Entry(Priority(0.0, root.time, 0, 0), 0)], None, 1, 0, 0, 1)
  }

  // ---- paths through parent indices ----------------------------------------------------------------------

  /** The root comes first and parents come before their children. */
  predicate ArenaShaped(arena: seq<ArenaLabel>) {
    && arena != [] && arena[0].parent == -1
    && (forall i | 0 < i < |arena| :: 0 <= arena[i].parent < i)
  }

  function PathOf(arena: seq<ArenaLabel>, i: nat): (path: seq<nat>)
    requires ArenaShaped(arena) && i < |arena|
    ensures path != [] && path[|path| - 1] == arena[i].node && (|path| == 1 <==> i == 0)
  {
    if i == 0 then [arena[0].node] else PathOf(arena, arena[i].parent) + [arena[i].node]
  }

  /** The label with its path, as the path-carrying search would hold it. */
  function ViewOf(arena: seq<ArenaLabel>, i: nat): Label
    requires ArenaShaped(arena) && i < |arena|
  {
    Bare(arena[i]).(path := PathOf(arena, i))
  }

  function Views(arena: seq<ArenaLabel>, ids: seq<nat>): (s: seq<Label>)
    requires ArenaShaped(arena) && forall i | 0 <= i < |ids| :: ids[i] < |arena|
    ensures |s| == |ids| && forall i | 0 <= i < |s| :: s[i] == ViewOf(arena, ids[i])
  {
    if ids == [] then [] else [ViewOf(arena, ids[0])] + Views(arena, ids[1..])
  }

  /** No two labels are the same step from the same parent. */
  predicate StepsDistinct(arena: seq<ArenaLabel>) {
    forall i, j | 0 < i < j < |arena| :: arena[i].parent != arena[j].parent || arena[i].node != arena[j].node
  }

  lemma {:induction false} PathsInjective(arena: seq<ArenaLabel>, i: nat, j: nat)
    requires ArenaShaped(arena) && StepsDistinct(arena) && i < |arena| && j < |arena|
    requires PathOf(arena, i) == PathOf(arena, j)
    ensures i == j
    decreases i + j
  {
    if i > 0 {
      var a, b := PathOf(arena, arena[i].parent), PathOf(arena, arena[j].parent);
      assert a == PathOf(arena, i)[..|PathOf(arena, i)| - 1];
      assert b == PathOf(arena, j)[..|PathOf(arena, j)| - 1];
      PathsInjective(arena, arena[i].parent, arena[j].parent);
    }
  }

  /** Paths only depend on nodes and parents up to the label. */
  lemma {:induction false} PathFrame(arena: seq<ArenaLabel>, arena': seq<ArenaLabel>, i: nat)
    requires ArenaShaped(arena) && ArenaShaped(arena') && i < |arena| <= |arena'|
    requires forall j | 0 <= j < |arena| :: arena'[j].(live := arena[j].live) == arena[j]
    ensures ViewOf(arena', i) == ViewOf(arena, i)
  {
    if i > 0 { PathFrame(arena, arena', arena[i].parent); }
  }

  /** The loop that follows parents from a terminal label and reverses what it met. */
  method ReconstructPath(arena: seq<ArenaLabel>, node: nat, parent: int) returns (path: seq<nat>)
    requires ArenaShaped(arena) && 0 <= parent < |arena|
    ensures path == PathOf(arena, parent) + [node]
  {
    var reversed := [node];
    var at := parent;
    while at >= 0
      invariant -1 <= at < |arena|
      invariant PathOf(arena, parent) + [node] == (if at >= 0 then PathOf(arena, at) else []) + Reversed(reversed)
      decreases at
    {
      ReversedPush(reversed, arena[at].node);
      reversed := reversed + [arena[at].node];
      at := arena[at].parent;
    }
    path := Reversed(reversed);
  }

  function Reversed(s: seq<nat>): seq<nat> {
    if s == [] then [] else Reversed(s[1..]) + [s[0]]
  }

  lemma {:induction false} ReversedPush(s: seq<nat>, x: nat)
    ensures Reversed(s + [x]) == [x] + Reversed(s)
  {
    if s != [] {
      assert (s + [x])[1..] == s[1..] + [x];
      ReversedPush(s[1..], x);
    }
  }

  // ---- one request ---------------------------------------------------------------------------------------

  /** The sweep of a group by a newcomer: dominated members lose their flag, the others survive in order. */
  function Sweep(eps: real, arena: seq<ArenaLabel>, group: seq<nat>, c: ArenaLabel): (r: (seq<ArenaLabel>, seq<nat>))
    requires forall i | 0 <= i < |group| :: group[i] < |arena|
    ensures |r.0| == |arena| && |r.1| <= |group|
    ensures forall i | 0 <= i < |arena| :: r.0[i].(live := arena[i].live) == arena[i]
    ensures forall i: nat | i < |arena| :: r.0[i].live <==> arena[i].live && !(i in group && Dominates(eps, Bare(c), Bare(arena[i])))
    ensures forall id :: id in r.1 <==> id in group && !Dominates(eps, Bare(c), Bare(arena[id]))
  {
    if group == [] then (arena, [])
    else
      assert forall id :: id in group <==> id == group[0] || id in group[1..];
      var rest := Sweep(eps, arena, group[1..], c);
      if Dominates(eps, Bare(c), Bare(arena[group[0]])) then
        (rest.0[group[0] := rest.0[group[0]].(live := false)], rest.1)
      else (rest.0, [group[0]] + rest.1)
  }

  predicate Shaped(p: Problem, c: RouteSearch) {
    && ArenaShaped(c.arena) && |c.groups| == GroupCount(p)
    && (forall g, i | 0 <= g < |c.groups| && 0 <= i < |c.groups[g]| :: c.groups[g][i] < |c.arena|)
  }

  function Group(p: Problem, c: RouteSearch, k: Key): (s: seq<nat>)
    requires Shaped(p, c) && KeyInRange(p, k)
    ensures forall i | 0 <= i < |s| :: s[i] < |c.arena|
  {
    GroupBound(p, k);
    c.groups[GroupOf(p, k.0, k.1)]
  }

  /** The label a feasible request creates. */
  function Child(p: Problem, l: ArenaLabel, index: nat, k: Key, a: Arrival): ArenaLabel {
    ArenaLabel(k.0, k.1, a.time, a.battery, l.distance + p.inst.dist(l.node, k.1),
               l.energy + Energy(p.inst, l.node, k.1), l.charged + a.charged, l.chargeTime + a.chargeTime, index, true)
  }

  predicate DominatedIn(eps: real, arena: seq<ArenaLabel>, group: seq<nat>, child: ArenaLabel)
    requires forall i | 0 <= i < |group| :: group[i] < |arena|
  {
    exists i | 0 <= i < |group| :: Dominates(eps, Bare(arena[group[i]]), Bare(child))
  }

  function Insert(p: Problem, c: RouteSearch, child: ArenaLabel): RouteSearch
    requires Shaped(p, c) && KeyInRange(p, (child.progress, child.node))
  {
    var k := (child.progress, child.node);
    var group := Group(p, c, k);
    if DominatedIn(p.eps, c.arena, group, child) then c.(pruned := c.pruned + 1)
    else
      var swept := Sweep(p.eps, c.arena, group, child);
      GroupBound(p, k);
      c.(arena := swept.0 + [child],
         groups := c.groups[GroupOf(p, k.0, k.1) := swept.1 + [|c.arena|]],
         queue := c.queue + [Entry(Priority(child.distance, child.time, -(child.progress as int), c.serial + 1), |c.arena|)],
         pruned := c.pruned + (|group| - |swept.1|),
         serial := c.serial + 1)
  }

  function Handle(p: Problem, c: RouteSearch, index: nat, k: Key): RouteSearch
    requires Runnable(p) && Shaped(p, c) && index < |c.arena| && KeyInRange(p, k)
  {
    var l := c.arena[index];
    var counted := c.(generated := c.generated + 1);
    match Arrive(p.inst, p.eps, l.time, l.battery, l.node, k.1)
    case None => counted.(pruned := c.pruned + 1)
    case Some(a) =>
      var child := Child(p, l, index, k, a);
      if IsTerminal(p, k.0, k.1) then
        if c.best.None? || BetterTerminal(Bare(child), Bare(c.best.value)) then counted.(best := Some(child)) else counted
      else Insert(p, counted, child)
  }

  // ---- popping -------------------------------------------------------------------------------------------

  predicate QueueInRange(c: RouteSearch) {
    forall i | 0 <= i < |c.queue| :: c.queue[i].item < |c.arena|
  }

  /** Pops until a live label or the end of the queue. */
  function PopLive(c: RouteSearch): (r: (RouteSearch, Option<nat>))
    requires QueueInRange(c)
    ensures r.1.Some? ==> r.1.value < |c.arena|
    ensures r.0 == c.(queue := r.0.queue) && |r.0.queue| <= |c.queue|
    decreases |c.queue|
  {
    if c.queue == [] then (c, None)
    else
      var i := MinIndex(c.queue);
      var rest := c.(queue := Without(c.queue, i));
      if c.arena[c.queue[i].item].live then (rest, Some(c.queue[i].item)) else PopLive(rest)
  }
}
