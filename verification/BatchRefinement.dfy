/** The arena search of a route mirrors the path-carrying search, request by request. */
module BatchRefinement {
  import opened Options
  import opened PriorityQueue
  import opened ChargingSearch
  import opened BatchLabels

  ghost predicate Flagged(p: Problem, c: RouteSearch)
    requires Shaped(p, c)
  {
    && (forall i | 0 <= i < |c.arena| :: KeyInRange(p, (c.arena[i].progress, c.arena[i].node)))
    && (forall i: nat | i < |c.arena| :: c.arena[i].live <==> i in Group(p, c, (c.arena[i].progress, c.arena[i].node)))
    && (forall k, i | KeyInRange(p, k) && 0 <= i < |Group(p, c, k)| ::
          (c.arena[Group(p, c, k)[i]].progress, c.arena[Group(p, c, k)[i]].node) == k)
  }

  ghost predicate Childless(c: RouteSearch, id: nat) {
    forall j | 0 < j < |c.arena| :: c.arena[j].parent != id
  }

  /** A queued label has not been expanded yet, and is queued once. */
  ghost predicate QueueFresh(c: RouteSearch) {
    && (forall i | 0 <= i < |c.queue| :: c.queue[i].item < |c.arena| && Childless(c, c.queue[i].item))
    && (forall i, j | 0 <= i < j < |c.queue| :: c.queue[i].item != c.queue[j].item)
  }

  ghost predicate BucketsMatch(p: Problem, c: RouteSearch, s: SearchState)
    requires Shaped(p, c)
  {
    forall k: Key :: Bucket(s, k) == if KeyInRange(p, k) then Views(c.arena, Group(p, c, k)) else []
  }

  predicate SamePriority(a: Priority, b: Priority) {
    && a.distance == b.distance && a.time == b.time && a.negProgress == b.negProgress
    && a.serial == if b.serial == 0 then 0 else b.serial + 1
  }

  ghost predicate QueueMatches(p: Problem, c: RouteSearch, s: SearchState)
    requires Shaped(p, c)
  {
    && |c.queue| == |s.queue|
    && (forall i | 0 <= i < |c.queue| ::
          c.queue[i].item < |c.arena| && s.queue[i].item == ViewOf(c.arena, c.queue[i].item)
          && SamePriority(c.queue[i].priority, s.queue[i].priority))
  }

  ghost predicate BestMatches(p: Problem, c: RouteSearch, s: SearchState)
    requires Shaped(p, c)
  {
    match c.best
    case None => s.best.None?
    case Some(b) =>
      0 <= b.parent < |c.arena| && s.best == Some(Bare(b).(path := PathOf(c.arena, b.parent) + [b.node]))
  }

  ghost predicate Mirrors(p: Problem, c: RouteSearch, s: SearchState) {
    && Shaped(p, c) && StepsDistinct(c.arena) && Flagged(p, c) && QueueFresh(c)
    && BucketsMatch(p, c, s) && QueueMatches(p, c, s) && BestMatches(p, c, s)
    && c.generated == s.generated && c.expanded == s.expanded && c.pruned == s.pruned && c.serial == s.serial >= 1
  }

  // ---- the start -----------------------------------------------------------------------------------------

  lemma StartMirrors(p: Problem)
    requires Runnable(p)
    ensures Mirrors(p, StartRoute(p), Start(p))
  {
    var c, s := StartRoute(p), Start(p);
    hide GroupOf, GroupCount;
    GroupBound(p, (0, p.inst.depot));
    forall k: Key | KeyInRange(p, k) ensures Group(p, c, k) == if k == (0, p.inst.depot) then [0] else [] {
      GroupBound(p, k);
      if k != (0, p.inst.depot) { GroupsApart(p, k, (0, p.inst.depot)); }
    }
    assert ViewOf(c.arena, 0) == Initial(p);
    forall k: Key ensures Bucket(s, k) == if KeyInRange(p, k) then Views(c.arena, Group(p, c, k)) else [] {
      if k == (0, p.inst.depot) { assert Views(c.arena, [0]) == [Initial(p)]; }
    }
  }

  // ---- filing a child ------------------------------------------------------------------------------------

  lemma DominanceMatches(eps: real, arena: seq<ArenaLabel>, group: seq<nat>, child: ArenaLabel, c: Label)
    requires ArenaShaped(arena) && (forall i | 0 <= i < |group| :: group[i] < |arena|)
    requires c.(path := []) == Bare(child)
    ensures DominatedIn(eps, arena, group, child) <==> exists m | m in Views(arena, group) :: Dominates(eps, m, c)
  {
    var views := Views(arena, group);
    if DominatedIn(eps, arena, group, child) {
      var i :| 0 <= i < |group| && Dominates(eps, Bare(arena[group[i]]), Bare(child));
      assert views[i] in views && Dominates(eps, views[i], c);
    }
    if m :| m in views && Dominates(eps, m, c) {
      var i :| 0 <= i < |views| && views[i] == m;
      assert Dominates(eps, Bare(arena[group[i]]), Bare(child));
    }
  }

  lemma BareDominance(eps: real, arena: seq<ArenaLabel>, i: nat, child: ArenaLabel, c: Label)
    requires ArenaShaped(arena) && i < |arena| && c.(path := []) == Bare(child)
    ensures Dominates(eps, c, ViewOf(arena, i)) <==> Dominates(eps, Bare(child), Bare(arena[i]))
  {
  }

  lemma {:induction false} SweepMatches(eps: real, arena: seq<ArenaLabel>, group: seq<nat>, child: ArenaLabel, c: Label)
    requires ArenaShaped(arena) && (forall i | 0 <= i < |group| :: group[i] < |arena|)
    requires c.(path := []) == Bare(child)
    ensures var swept := Sweep(eps, arena, group, child).1;
      && (forall i | 0 <= i < |swept| :: swept[i] < |arena|)
      && Views(arena, swept) == Undominated(eps, Views(arena, group), c)
  {
    hide Dominates, PathOf, Bare;
    var swept := Sweep(eps, arena, group, child).1;
    forall i | 0 <= i < |swept| ensures swept[i] < |arena| { assert swept[i] in group; }
    if group != [] {
      BareDominance(eps, arena, group[0], child, c);
      SweepMatches(eps, arena, group[1..], child, c);
      assert Views(arena, group)[1..] == Views(arena, group[1..]);
    }
  }

  lemma {:induction false} ViewsFrame(arena: seq<ArenaLabel>, arena': seq<ArenaLabel>, ids: seq<nat>)
    requires ArenaShaped(arena) && ArenaShaped(arena') && |arena| <= |arena'|
    requires forall j | 0 <= j < |arena| :: arena'[j].(live := arena[j].live) == arena[j]
    requires forall i | 0 <= i < |ids| :: ids[i] < |arena|
    ensures Views(arena', ids) == Views(arena, ids)
  {
    if ids != [] {
      PathFrame(arena, arena', ids[0]);
      ViewsFrame(arena, arena', ids[1..]);
    }
  }

  lemma {:induction false} ViewsAppend(arena: seq<ArenaLabel>, ids: seq<nat>, id: nat)
    requires ArenaShaped(arena) && id < |arena| && forall i | 0 <= i < |ids| :: ids[i] < |arena|
    ensures Views(arena, ids + [id]) == Views(arena, ids) + [ViewOf(arena, id)]
  {
    if ids != [] {
      assert (ids + [id])[1..] == ids[1..] + [id];
      ViewsAppend(arena, ids[1..], id);
    }
  }

  /** No label is yet the step from `index` to `node`. */
  ghost predicate NoStep(c: RouteSearch, index: nat, node: nat) {
    forall j | 0 < j < |c.arena| :: c.arena[j].parent != index || c.arena[j].node != node
  }

  ghost predicate Unqueued(c: RouteSearch, index: nat) {
    forall i | 0 <= i < |c.queue| :: c.queue[i].item != index
  }

  /** The arena only grows; flags aside, old labels stay. */
  ghost predicate Extends(c: RouteSearch, c': RouteSearch) {
    && |c.arena| <= |c'.arena|
    && (forall j | 0 <= j < |c.arena| :: c'.arena[j].(live := c.arena[j].live) == c.arena[j])
  }

  /** What filing a child needs to know about it. */
  ghost predicate Fitting(p: Problem, c: RouteSearch, child: ArenaLabel, l: Label)
    requires Shaped(p, c)
  {
    && KeyInRange(p, (child.progress, child.node)) && child.live && 0 <= child.parent < |c.arena|
    && l == Bare(child).(path := PathOf(c.arena, child.parent) + [child.node])
    && NoStep(c, child.parent, child.node) && Unqueued(c, child.parent)
  }

  /** The arena after a child was filed. */
  lemma InsertArena(p: Problem, c: RouteSearch, child: ArenaLabel, k: Key)
    requires Shaped(p, c) && KeyInRange(p, k) && k == (child.progress, child.node)
    requires !DominatedIn(p.eps, c.arena, Group(p, c, k), child)
    ensures Insert(p, c, child).arena == Sweep(p.eps, c.arena, Group(p, c, k), child).0 + [child]
  {
  }

  /** The groups after a child was filed: its own is swept and extended, the others stay. */
  lemma InsertGroups(p: Problem, c: RouteSearch, child: ArenaLabel, k: Key)
    requires Shaped(p, c) && KeyInRange(p, k) && k == (child.progress, child.node) && 0 <= child.parent < |c.arena|
    requires !DominatedIn(p.eps, c.arena, Group(p, c, k), child)
    ensures Shaped(p, Insert(p, c, child)) && Extends(c, Insert(p, c, child))
    ensures |Insert(p, c, child).arena| == |c.arena| + 1 && Insert(p, c, child).arena[|c.arena|] == child
    ensures Group(p, Insert(p, c, child), k) == Sweep(p.eps, c.arena, Group(p, c, k), child).1 + [|c.arena|]
    ensures forall k': Key | KeyInRange(p, k') && k' != k :: Group(p, Insert(p, c, child), k') == Group(p, c, k')
  {
    hide Sweep, GroupOf, GroupCount;
    var group := Group(p, c, k);
    var survivors := Sweep(p.eps, c.arena, group, child).1;
    GroupBound(p, k);
    assert forall i | 0 <= i < |survivors| :: survivors[i] in group;
    forall k': Key | KeyInRange(p, k') && k' != k ensures Group(p, Insert(p, c, child), k') == Group(p, c, k') {
      GroupsApart(p, k, k');
      GroupBound(p, k');
    }
  }

  /** The state after filing `child` under `k`, described without the code that files it. */
  ghost predicate Filed(p: Problem, c: RouteSearch, c': RouteSearch, child: ArenaLabel, k: Key)
    requires Shaped(p, c) && Shaped(p, c') && KeyInRange(p, k)
  {
    var swept, n := Sweep(p.eps, c.arena, Group(p, c, k), child), |c.arena|;
    && k == (child.progress, child.node) && child.live
    && Extends(c, c') && |c'.arena| == n + 1 && c'.arena[n] == child
    && (forall i | 0 <= i < n :: c'.arena[i] == swept.0[i])
    && Group(p, c', k) == swept.1 + [n]
    && (forall k': Key | KeyInRange(p, k') && k' != k :: Group(p, c', k') == Group(p, c, k'))
  }

  lemma InsertFiles(p: Problem, c: RouteSearch, child: ArenaLabel, k: Key)
    requires Shaped(p, c) && KeyInRange(p, k) && k == (child.progress, child.node) && 0 <= child.parent < |c.arena|
    requires child.live && !DominatedIn(p.eps, c.arena, Group(p, c, k), child)
    ensures Shaped(p, Insert(p, c, child)) && Filed(p, c, Insert(p, c, child), child, k)
  {
    hide Sweep, GroupOf, GroupCount, Group;
    InsertGroups(p, c, child, k);
    InsertArena(p, c, child, k);
  }

  lemma FiledFlags(p: Problem, c: RouteSearch, c': RouteSearch, child: ArenaLabel, k: Key)
    requires Shaped(p, c) && Shaped(p, c') && KeyInRange(p, k) && Filed(p, c, c', child, k) && Flagged(p, c)
    ensures forall i: nat | i < |c'.arena| :: (
      KeyInRange(p, (c'.arena[i].progress, c'.arena[i].node))
      && (c'.arena[i].live <==> i in Group(p, c', (c'.arena[i].progress, c'.arena[i].node))))
  {
    hide Sweep, Dominates, Group, GroupOf, GroupCount;
    var swept, n := Sweep(p.eps, c.arena, Group(p, c, k), child), |c.arena|;
    forall i: nat | i < |c'.arena|
      ensures KeyInRange(p, (c'.arena[i].progress, c'.arena[i].node))
      ensures c'.arena[i].live <==> i in Group(p, c', (c'.arena[i].progress, c'.arena[i].node))
    {
      if i < n {
        assert c'.arena[i] == swept.0[i] && swept.0[i].(live := c.arena[i].live) == c.arena[i];
        if (c.arena[i].progress, c.arena[i].node) == k {
          assert i in swept.1 + [n] <==> i in swept.1;
        }
      } else {
        assert (swept.1 + [n])[|swept.1|] == n;
      }
    }
  }

  lemma FiledKeys(p: Problem, c: RouteSearch, c': RouteSearch, child: ArenaLabel, k: Key, k': Key, i: nat)
    requires Shaped(p, c) && Shaped(p, c') && KeyInRange(p, k) && Filed(p, c, c', child, k) && Flagged(p, c)
    requires KeyInRange(p, k') && i < |Group(p, c', k')|
    ensures (c'.arena[Group(p, c', k')[i]].progress, c'.arena[Group(p, c', k')[i]].node) == k'
  {
    hide Sweep, Dominates, Group, GroupOf, GroupCount;
    var id := Group(p, c', k')[i];
    if k' == k {
      var survivors := Sweep(p.eps, c.arena, Group(p, c, k), child).1;
      if i < |survivors| {
        assert survivors[i] in Group(p, c, k);
        var j :| 0 <= j < |Group(p, c, k)| && Group(p, c, k)[j] == id;
        assert c'.arena[id].(live := c.arena[id].live) == c.arena[id];
      }
    } else {
      assert Group(p, c, k')[i] == id;
      assert c'.arena[id].(live := c.arena[id].live) == c.arena[id];
    }
  }

  lemma FiledFlagged(p: Problem, c: RouteSearch, c': RouteSearch, child: ArenaLabel, k: Key)
    requires Shaped(p, c) && Shaped(p, c') && KeyInRange(p, k) && Filed(p, c, c', child, k) && Flagged(p, c)
    ensures Flagged(p, c')
  {
    FiledFlags(p, c, c', child, k);
    forall k', i | KeyInRange(p, k') && 0 <= i < |Group(p, c', k')|
      ensures (c'.arena[Group(p, c', k')[i]].progress, c'.arena[Group(p, c', k')[i]].node) == k'
    {
      FiledKeys(p, c, c', child, k, k', i);
    }
  }

  /** The group of the new label holds what the sweep left, and then the label. */
  lemma FiledOwnBucket(p: Problem, c: RouteSearch, c': RouteSearch, child: ArenaLabel, l: Label)
    requires Shaped(p, c) && Shaped(p, c') && KeyInRange(p, KeyOf(l)) && Filed(p, c, c', child, KeyOf(l))
    requires l.(path := []) == Bare(child) && ViewOf(c'.arena, |c.arena|) == l
    ensures Views(c'.arena, Group(p, c', KeyOf(l))) == Undominated(p.eps, Views(c.arena, Group(p, c, KeyOf(l))), l) + [l]
  {
    hide Sweep, Dominates, Group, GroupOf, GroupCount, PathOf, Bare;
    var group := Group(p, c, KeyOf(l));
    var survivors := Sweep(p.eps, c.arena, group, child).1;
    SweepMatches(p.eps, c.arena, group, child, l);
    ViewsFrame(c.arena, c'.arena, survivors);
    ViewsAppend(c'.arena, survivors, |c.arena|);
  }

  lemma FiledBuckets(p: Problem, c: RouteSearch, c': RouteSearch, child: ArenaLabel, s: SearchState, l: Label)
    requires Shaped(p, c) && Shaped(p, c') && KeyInRange(p, KeyOf(l)) && Filed(p, c, c', child, KeyOf(l))
    requires BucketsMatch(p, c, s) && l.(path := []) == Bare(child) && ViewOf(c'.arena, |c.arena|) == l
    ensures BucketsMatch(p, c', s.(labels := s.labels[KeyOf(l) := Undominated(p.eps, Bucket(s, KeyOf(l)), l) + [l]]))
  {
    hide Sweep, Dominates, Group, GroupOf, GroupCount, PathOf, Bare, Undominated, ViewOf;
    FiledOwnBucket(p, c, c', child, l);
    forall k': Key | KeyInRange(p, k') && k' != KeyOf(l)
      ensures Views(c'.arena, Group(p, c', k')) == Views(c.arena, Group(p, c, k'))
    {
      ViewsFrame(c.arena, c'.arena, Group(p, c, k'));
    }
  }

  lemma InsertSteps(p: Problem, c: RouteSearch, c': RouteSearch, child: ArenaLabel)
    requires Shaped(p, c) && Shaped(p, c') && Extends(c, c') && |c'.arena| == |c.arena| + 1 && c'.arena[|c.arena|] == child
    requires StepsDistinct(c.arena) && QueueFresh(c) && 0 <= child.parent < |c.arena|
    requires NoStep(c, child.parent, child.node) && Unqueued(c, child.parent)
    requires |c'.queue| == |c.queue| + 1 && c'.queue[..|c.queue|] == c.queue && c'.queue[|c.queue|].item == |c.arena|
    ensures StepsDistinct(c'.arena) && QueueFresh(c') && Unqueued(c', child.parent)
    ensures forall d | d != child.node && NoStep(c, child.parent, d) :: NoStep(c', child.parent, d)
  {
    var n := |c.arena|;
    assert forall j | 0 <= j < n :: c'.arena[j].parent == c.arena[j].parent && c'.arena[j].node == c.arena[j].node by {
      assert forall j | 0 <= j < n :: c'.arena[j].(live := c.arena[j].live) == c.arena[j];
    }
    assert forall i | 0 <= i < |c.queue| :: c'.queue[i] == c'.queue[..|c.queue|][i];
  }

  lemma InsertQueue(p: Problem, c: RouteSearch, c': RouteSearch, s: SearchState, s': SearchState)
    requires Shaped(p, c) && Shaped(p, c') && Extends(c, c') && |c'.arena| == |c.arena| + 1
    requires QueueMatches(p, c, s) && BestMatches(p, c, s) && c'.best == c.best && s'.best == s.best
    requires |c'.queue| == |c.queue| + 1 && c'.queue[..|c.queue|] == c.queue
    requires |s'.queue| == |s.queue| + 1 && s'.queue[..|s.queue|] == s.queue
    requires c'.queue[|c.queue|].item == |c.arena| && s'.queue[|s.queue|].item == ViewOf(c'.arena, |c.arena|)
    requires SamePriority(c'.queue[|c.queue|].priority, s'.queue[|s.queue|].priority)
    ensures QueueMatches(p, c', s') && BestMatches(p, c', s')
  {
    hide PathOf;
    forall i | 0 <= i < |c'.queue|
      ensures c'.queue[i].item < |c'.arena| && s'.queue[i].item == ViewOf(c'.arena, c'.queue[i].item)
              && SamePriority(c'.queue[i].priority, s'.queue[i].priority)
    {
      if i < |c.queue| {
        assert c'.queue[i] == c'.queue[..|c.queue|][i] && s'.queue[i] == s'.queue[..|s.queue|][i];
        PathFrame(c.arena, c'.arena, c.queue[i].item);
      }
    }
    if c.best.Some? {
      PathFrame(c.arena, c'.arena, c.best.value.parent);
    }
  }

  /** How the two sides file a child. */
  lemma InsertCases(p: Problem, c: RouteSearch, child: ArenaLabel, k: Key)
    requires Shaped(p, c) && KeyInRange(p, k) && k == (child.progress, child.node)
    ensures var c', swept := Insert(p, c, child), Sweep(p.eps, c.arena, Group(p, c, k), child).1;
      if DominatedIn(p.eps, c.arena, Group(p, c, k), child) then c' == c.(pruned := c.pruned + 1)
      else
        && c'.best == c.best && c'.generated == c.generated && c'.expanded == c.expanded
        && c'.queue == c.queue + [Entry(Priority(child.distance, child.time, -(child.progress as int), c.serial + 1), |c.arena|)]
        && c'.pruned == c.pruned + (|Group(p, c, k)| - |swept|) && c'.serial == c.serial + 1
  {
    hide Sweep, DominatedIn, GroupOf, GroupCount;
  }

  lemma FileCases(p: Problem, s: SearchState, l: Label)
    requires !IsTerminal(p, l.progress, l.node)
    ensures var bucket := Bucket(s, KeyOf(l)); var survivors := Undominated(p.eps, bucket, l);
      File(p, s, l) == if exists m | m in bucket :: Dominates(p.eps, m, l) then s.(pruned := s.pruned + 1)
                       else SearchState(s.labels[KeyOf(l) := survivors + [l]], s.queue + [Prioritized(l, s.serial)], s.best,
                                        s.generated, s.expanded, s.pruned + (|bucket| - |survivors|), s.serial + 1)
  {
  }

  lemma InsertCounts(p: Problem, c: RouteSearch, child: ArenaLabel, s: SearchState, l: Label)
    requires Shaped(p, c) && BucketsMatch(p, c, s) && KeyInRange(p, KeyOf(l)) && l.(path := []) == Bare(child)
    requires !IsTerminal(p, l.progress, l.node) && c.pruned == s.pruned && c.serial == s.serial >= 1
    ensures var c', s' := Insert(p, c, child), File(p, s, l);
      if DominatedIn(p.eps, c.arena, Group(p, c, KeyOf(l)), child) then
        c' == c.(pruned := c.pruned + 1) && s' == s.(pruned := s.pruned + 1)
      else
        && c'.best == c.best && c'.generated == c.generated && c'.expanded == c.expanded
        && c'.queue == c.queue + [Entry(Priority(child.distance, child.time, -(child.progress as int), c.serial + 1), |c.arena|)]
        && s' == SearchState(s.labels[KeyOf(l) := Undominated(p.eps, Bucket(s, KeyOf(l)), l) + [l]],
                             s.queue + [Prioritized(l, s.serial)], s.best, s.generated, s.expanded, c'.pruned, s.serial + 1)
        && c'.serial == s.serial + 1
  {
    hide Insert, File, Dominates, Sweep, Group, Undominated, Views, DominatedIn;
    var k := KeyOf(l);
    BucketOf(p, c, s, k);
    InsertCases(p, c, child, k);
    FileCases(p, s, l);
    DominanceMatches(p.eps, c.arena, Group(p, c, k), child, l);
    SweepMatches(p.eps, c.arena, Group(p, c, k), child, l);
  }

  lemma BucketOf(p: Problem, c: RouteSearch, s: SearchState, k: Key)
    requires Shaped(p, c) && BucketsMatch(p, c, s) && KeyInRange(p, k)
    ensures Bucket(s, k) == Views(c.arena, Group(p, c, k))
  {
  }

  lemma InsertedView(p: Problem, c: RouteSearch, c': RouteSearch, child: ArenaLabel, l: Label)
    requires Shaped(p, c) && Shaped(p, c') && Extends(c, c') && |c'.arena| == |c.arena| + 1 && c'.arena[|c.arena|] == child
    requires Fitting(p, c, child, l)
    ensures ViewOf(c'.arena, |c.arena|) == l
  {
    PathFrame(c.arena, c'.arena, child.parent);
  }

  /** Filing a child keeps the mirror, whether it is pruned or kept. */
  lemma InsertMirrors(p: Problem, c: RouteSearch, child: ArenaLabel, s: SearchState, l: Label)
    requires Mirrors(p, c, s) && Fitting(p, c, child, l) && !IsTerminal(p, l.progress, l.node)
    ensures var c' := Insert(p, c, child);
      && Mirrors(p, c', File(p, s, l)) && Extends(c, c')
      && Unqueued(c', child.parent)
      && (forall d | d != child.node && NoStep(c, child.parent, d) :: NoStep(c', child.parent, d))
  {
    hide Insert, File, Sweep, Group, DominatedIn, PathOf, Flagged, BucketsMatch, Dominates, Undominated, Bucket;
    InsertCounts(p, c, child, s, l);
    var c', k := Insert(p, c, child), KeyOf(l);
    if DominatedIn(p.eps, c.arena, Group(p, c, k), child) {
      PrunedMirrors(p, c, s);
    } else {
      InsertFiles(p, c, child, k);
      FiledFlagged(p, c, c', child, k);
      InsertSteps(p, c, c', child);
      InsertedView(p, c, c', child, l);
      InsertQueue(p, c, c', s, File(p, s, l));
      FiledBuckets(p, c, c', child, s, l);
      SameBuckets(p, c', s.(labels := s.labels[k := Undominated(p.eps, Bucket(s, k), l) + [l]]), File(p, s, l));
    }
  }

  lemma SameBuckets(p: Problem, c: RouteSearch, s: SearchState, s': SearchState)
    requires Shaped(p, c) && BucketsMatch(p, c, s) && s'.labels == s.labels
    ensures BucketsMatch(p, c, s')
  {
    assert forall k: Key :: Bucket(s', k) == Bucket(s, k);
  }

  /** Counters of pruned labels move together. */
  lemma PrunedMirrors(p: Problem, c: RouteSearch, s: SearchState)
    requires Mirrors(p, c, s)
    ensures Mirrors(p, c.(pruned := c.pruned + 1), s.(pruned := s.pruned + 1))
  {
    hide PathOf, Group, Views;
    CountsMirror(p, c, s, c.generated, c.expanded, c.pruned + 1);
  }

  lemma CountsMirror(p: Problem, c: RouteSearch, s: SearchState, generated: nat, expanded: nat, pruned: nat)
    requires Mirrors(p, c, s)
    ensures Mirrors(p, c.(generated := generated, expanded := expanded, pruned := pruned),
                    s.(generated := generated, expanded := expanded, pruned := pruned))
  {
    hide PathOf, Flagged, BucketsMatch, Group, GroupCount;
    var c', s' := c.(generated := generated, expanded := expanded, pruned := pruned),
                  s.(generated := generated, expanded := expanded, pruned := pruned);
    SameCore(p, c, c', s, s');
  }

  // ---- one request and one pop -----------------------------------------------------------------------------

  lemma TerminalMirrors(p: Problem, c: RouteSearch, child: ArenaLabel, s: SearchState, l: Label)
    requires Mirrors(p, c, s) && 0 <= child.parent < |c.arena|
    requires l == Bare(child).(path := PathOf(c.arena, child.parent) + [child.node])
    requires IsTerminal(p, l.progress, l.node)
    ensures Mirrors(p, if c.best.None? || BetterTerminal(Bare(child), Bare(c.best.value)) then c.(best := Some(child)) else c,
                    File(p, s, l))
  {
    hide PathOf, Group, Views, Flagged, BucketsMatch, QueueMatches, StepsDistinct, QueueFresh, Shaped, Bucket, Undominated;
    BestMirrors(p, c, child, s, l);
  }

  lemma BestMirrors(p: Problem, c: RouteSearch, child: ArenaLabel, s: SearchState, l: Label)
    requires Mirrors(p, c, s) && 0 <= child.parent < |c.arena|
    requires l == Bare(child).(path := PathOf(c.arena, child.parent) + [child.node])
    ensures Mirrors(p, c.(best := Some(child)), s.(best := Some(l)))
  {
    hide PathOf, Bare, Flagged, BucketsMatch, Group, GroupCount;
    var c', s' := c.(best := Some(child)), s.(best := Some(l));
    SameCore(p, c, c', s, s');
  }

  /** Buckets and flags only depend on the arena and the groups. */
  lemma SameCore(p: Problem, c: RouteSearch, c': RouteSearch, s: SearchState, s': SearchState)
    requires Shaped(p, c) && Flagged(p, c) && BucketsMatch(p, c, s)
    requires c'.arena == c.arena && c'.groups == c.groups && s'.labels == s.labels
    ensures Shaped(p, c') && Flagged(p, c') && BucketsMatch(p, c', s')
  {
    hide GroupOf, GroupCount, Views;
    assert Shaped(p, c');
    SameGroups(p, c, c');
    forall k: Key ensures Bucket(s', k) == if KeyInRange(p, k) then Views(c'.arena, Group(p, c', k)) else [] {
      assert Bucket(s', k) == Bucket(s, k);
    }
  }

  lemma SameGroups(p: Problem, c: RouteSearch, c': RouteSearch)
    requires Shaped(p, c) && Shaped(p, c') && c.groups == c'.groups
    ensures forall k: Key | KeyInRange(p, k) :: Group(p, c', k) == Group(p, c, k)
  {
  }

  /** One request: counted, extended and filed alike on both sides. */
  lemma HandleMirrors(p: Problem, c: RouteSearch, s: SearchState, index: nat, k: Key)
    requires Runnable(p) && Mirrors(p, c, s) && index < |c.arena| && KeyInRange(p, k)
    requires NoStep(c, index, k.1) && Unqueued(c, index)
    ensures var c' := Handle(p, c, index, k);
      && Mirrors(p, c', Relax(p, ViewOf(c.arena, index), k, s)) && Extends(c, c') && Unqueued(c', index)
      && (forall d | d != k.1 && NoStep(c, index, d) :: NoStep(c', index, d))
  {
    hide Insert, File, PathOf, Group, Flagged, BucketsMatch, QueueMatches, StepsDistinct, QueueFresh;
    var l := ViewOf(c.arena, index);
    CountsMirror(p, c, s, c.generated + 1, c.expanded, c.pruned);
    CountsMirror(p, c, s, c.generated + 1, c.expanded, c.pruned + 1);
    var counted, begun := c.(generated := c.generated + 1), s.(generated := s.generated + 1);
    var a := Arrive(p.inst, p.eps, l.time, l.battery, l.node, k.1);
    if a.Some? {
      var child := Child(p, c.arena[index], index, k, a.value);
      if IsTerminal(p, k.0, k.1) {
        TerminalMirrors(p, counted, child, begun, Extend(p, l, k.1, k.0).value);
      } else {
        InsertMirrors(p, counted, child, begun, Extend(p, l, k.1, k.0).value);
      }
    }
  }

  lemma SameOrder(p: Problem, c: RouteSearch, s: SearchState)
    requires Shaped(p, c) && QueueMatches(p, c, s) && c.queue != []
    ensures MinIndex(c.queue) == MinIndex(s.queue)
  {
    SameMinIndex(c.queue, s.queue);
  }

  lemma LiveMatches(p: Problem, c: RouteSearch, s: SearchState, index: nat)
    requires Mirrors(p, c, s) && index < |c.arena|
    ensures c.arena[index].live <==> Live(s, ViewOf(c.arena, index))
  {
    hide PathOf, Group;
    var l := ViewOf(c.arena, index);
    var k: Key := (c.arena[index].progress, c.arena[index].node);
    var group := Group(p, c, k);
    BucketOf(p, c, s, k);
    if c.arena[index].live {
      var i :| 0 <= i < |group| && group[i] == index;
      assert Views(c.arena, group)[i] == l;
    }
    if l in Views(c.arena, group) {
      var i :| 0 <= i < |group| && Views(c.arena, group)[i] == l;
      PathsInjective(c.arena, group[i], index);
    }
  }

  lemma PopMirrors(p: Problem, c: RouteSearch, s: SearchState, i: nat)
    requires Mirrors(p, c, s) && i < |c.queue|
    ensures var c', index := c.(queue := Without(c.queue, i)), c.queue[i].item;
      && index < |c.arena| && s.queue[i].item == ViewOf(c.arena, index)
      && Mirrors(p, c', s.(queue := Without(s.queue, i)))
      && Unqueued(c', index) && Childless(c', index)
  {
    hide PathOf, Flagged, BucketsMatch, Group, GroupCount;
    var c', s' := c.(queue := Without(c.queue, i)), s.(queue := Without(s.queue, i));
    forall j | 0 <= j < |c'.queue|
      ensures var j' := if j < i then j else j + 1; c'.queue[j] == c.queue[j'] && s'.queue[j] == s.queue[j']
    {
    }
    SameCore(p, c, c', s, s');
  }
}
