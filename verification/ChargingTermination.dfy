/** Tolerance zero: on separated stations no surviving label comes back to a station at the same progress, so paths are
    bounded by the sizes of the order and the network, and so is the number of turns. */
module ChargingTermination {
  import opened Options
  import opened EvrptwModel
  import opened PriorityQueue
  import opened ChargingSearch
  import opened ChargingExactness
  import opened SearchMeasure
  import opened Counting

  /** Different stations lie at a positive distance. */
  ghost predicate Separated(inst: Instance) {
    forall a, b | IsStation(inst, a) && IsStation(inst, b) && a != b :: inst.dist(a, b) > 0.0
  }

  // ---- trails: the labels along a path -------------------------------------------------------------------

  ghost predicate Leg(p: Problem, l: Label, m: Label)
    requires Runnable(p)
  {
    Offered(p, l, KeyOf(m)) && m.node < |p.inst.nodes| && Extend(p, l, m.node, m.progress) == Some(m)
  }

  /** The labels of an unfinished route, one per node of its path. */
  ghost predicate Trail(p: Problem, t: seq<Label>)
    requires Runnable(p)
  {
    && t != [] && t[0] == Initial(p)
    && (forall i | 0 < i < |t| :: Leg(p, t[i - 1], t[i]) && !IsTerminal(p, t[i].progress, t[i].node))
  }

  lemma LegFacts(p: Problem, l: Label, m: Label)
    requires ValidProblem(p) && p.eps == 0.0 && l.battery <= p.inst.vehicle.battery && l.progress <= |p.order|
    requires Leg(p, l, m)
    ensures m.battery <= p.inst.vehicle.battery && l.progress <= m.progress <= |p.order|
    ensures IsStation(p.inst, m.node) ==> m.battery == p.inst.vehicle.battery && l.time <= m.time
    ensures !IsTerminal(p, m.progress, m.node) ==> IsStation(p.inst, m.node) || m.progress > l.progress
    ensures Separated(p.inst) && IsStation(p.inst, l.node) && IsStation(p.inst, m.node) ==> l.distance < m.distance
    ensures |m.path| == |l.path| + 1
  {
    hide Energy, Travel;
    LegNonNegative(p.inst, l.node, m.node);
    assert m.distance == l.distance + p.inst.dist(l.node, m.node);
    assert m.battery <= p.inst.vehicle.battery;
    if IsStation(p.inst, m.node) { ArriveAtStation(p.inst, l.time, l.battery, l.node, m.node); }
  }

  lemma ArriveAtStation(inst: Instance, time: real, battery: real, origin: nat, dest: nat)
    requires WellFormed(inst) && IsStation(inst, dest) && battery <= inst.vehicle.battery
    ensures match Arrive(inst, 0.0, time, battery, origin, dest)
      case Some(a) => time <= a.time && a.battery == inst.vehicle.battery
      case None => true
  {
    hide Energy, Travel, Metric;
    LegNonNegative(inst, origin, dest);
    ChargeNonNegative(inst.vehicle, Max(0.0, battery - Energy(inst, origin, dest)));
  }

  lemma {:induction false} TrailFacts(p: Problem, t: seq<Label>, i: nat, j: nat)
    requires ValidProblem(p) && p.eps == 0.0 && Trail(p, t) && i <= j < |t|
    ensures t[j].battery <= p.inst.vehicle.battery && t[i].progress <= t[j].progress <= |p.order|
    ensures t[j].node < |p.inst.nodes| && |t[j].path| == j + 1
    ensures IsStation(p.inst, t[j].node) ==> t[j].battery == p.inst.vehicle.battery
    decreases j
  {
    if j > 0 {
      TrailFacts(p, t, if i < j then i else j - 1, j - 1);
      LegFacts(p, t[j - 1], t[j]);
    }
  }

  /** From a station on, staying at one progress means moving between stations, ever farther and no earlier. */
  lemma {:induction false} Detour(p: Problem, t: seq<Label>, i: nat, j: nat)
    requires ValidProblem(p) && p.eps == 0.0 && Separated(p.inst) && Trail(p, t) && i <= j < |t|
    requires IsStation(p.inst, t[i].node) && t[i].progress == t[j].progress
    ensures IsStation(p.inst, t[j].node) && t[i].time <= t[j].time && (i < j ==> t[i].distance < t[j].distance)
    decreases j
  {
    hide Leg, IsTerminal;
    if i < j {
      TrailFacts(p, t, i, j - 1);
      TrailFacts(p, t, j - 1, j);
      Detour(p, t, i, j - 1);
      assert Leg(p, t[j - 1], t[j]) && !IsTerminal(p, t[j].progress, t[j].node);
      LegFacts(p, t[j - 1], t[j]);
    }
  }

  // ---- the invariant -----------------------------------------------------------------------------------

  ghost predicate FreshKeys(t: seq<Label>) {
    forall i, j | 0 <= i < j < |t| :: KeyOf(t[i]) != KeyOf(t[j])
  }

  /** A label reached without repeating a (progress, node) pair, every label on the way still covered. */
  ghost predicate TightBy(p: Problem, st: SearchState, l: Label, t: seq<Label>)
    requires Runnable(p)
  {
    && Trail(p, t) && t[|t| - 1] == l && FreshKeys(t)
    && (forall i | 0 <= i < |t| :: Covered(st, t[i]))
  }

  ghost predicate Tight(p: Problem, st: SearchState, l: Label)
    requires Runnable(p)
  {
    exists t :: TightBy(p, st, l, t)
  }

  ghost predicate AllTight(p: Problem, st: SearchState)
    requires Runnable(p)
  {
    forall e | e in st.queue :: Tight(p, st, e.item)
  }

  lemma TightStays(p: Problem, st: SearchState, st': SearchState, l: Label)
    requires Runnable(p) && Tight(p, st, l) && Grows(st, st')
    ensures Tight(p, st', l)
  {
    var t: seq<Label> :| TightBy(p, st, l, t);
    assert TightBy(p, st', l, t);
  }

  /** A candidate that returns to a (progress, node) pair of its own trail is dominated. */
  lemma ReturnDominated(p: Problem, st: SearchState, t: seq<Label>, c: Label, i: nat)
    requires ValidProblem(p) && p.eps == 0.0 && Separated(p.inst)
    requires t != [] && TightBy(p, st, t[|t| - 1], t) && Trail(p, t + [c]) && i < |t| && KeyOf(t[i]) == KeyOf(c)
    ensures exists m | m in Bucket(st, KeyOf(c)) :: Dominates(p.eps, m, c)
  {
    hide Leg, IsTerminal;
    var t', n := t + [c], |t|;
    TrailFacts(p, t', i, i);
    TrailFacts(p, t', n - 1, n);
    TrailFacts(p, t', i, n - 1);
    LegFacts(p, t'[n - 1], t'[n]);
    Detour(p, t', i, n);
    assert t'[i] == t[i] && Covered(st, t[i]);
    var m :| m in Bucket(st, KeyOf(t[i])) && NoWorse(m, t[i]);
    assert Dominates(p.eps, m, c);
  }

  /** A candidate that gets queued is tight. */
  lemma QueuedTight(p: Problem, st: SearchState, l: Label, c: Label)
    requires ValidProblem(p) && p.eps == 0.0 && Separated(p.inst) && Tight(p, st, l) && Leg(p, l, c)
    requires !IsTerminal(p, c.progress, c.node)
    requires !exists m | m in Bucket(st, KeyOf(c)) :: Dominates(p.eps, m, c)
    ensures Tight(p, File(p, st, c), c)
  {
    hide Leg, File;
    var t: seq<Label> :| TightBy(p, st, l, t);
    var t' := t + [c];
    ZeroFilesFairly(p, st, c);
    FileCovers(p, st, c);
    assert Trail(p, t');
    forall i, j | 0 <= i < j < |t'| ensures KeyOf(t'[i]) != KeyOf(t'[j]) {
      if j == |t| && KeyOf(t[i]) == KeyOf(c) { ReturnDominated(p, st, t, c, i); }
    }
    assert TightBy(p, File(p, st, c), c, t');
  }

  // ---- bounded paths -------------------------------------------------------------------------------------

  function MaxLength(p: Problem): nat { (|p.order| + 1) * |p.inst.nodes| }

  /** Distinct (progress, node) pairs bound the length of a path. */
  lemma LengthBound(p: Problem, st: SearchState, l: Label)
    requires ValidProblem(p) && p.eps == 0.0 && Tight(p, st, l)
    ensures 1 <= |l.path| <= MaxLength(p)
    ensures l.progress <= |p.order| && l.node < |p.inst.nodes|
  {
    var t: seq<Label> :| TightBy(p, st, l, t);
    var n := |p.inst.nodes|;
    TrailFacts(p, t, |t| - 1, |t| - 1);
    RowsIsProduct(|p.order| + 1, n);
    var codes := seq(|t|, i requires 0 <= i < |t| => RowMajor(t[i].progress, t[i].node, n));
    forall i | 0 <= i < |t| ensures codes[i] < MaxLength(p) {
      TrailFacts(p, t, i, i);
      RowMajorBound(t[i].progress, t[i].node, |p.order| + 1, n);
    }
    forall i, j | 0 <= i < j < |t| ensures codes[i] != codes[j] {
      TrailFacts(p, t, i, j);
      TrailFacts(p, t, i, i);
      if codes[i] == codes[j] { RowMajorInjective(t[i].progress, t[i].node, t[j].progress, t[j].node, n); }
    }
    Pigeonhole(codes, MaxLength(p));
  }

  lemma FileTight(p: Problem, st: SearchState, l: Label, c: Label)
    requires ValidProblem(p) && p.eps == 0.0 && Separated(p.inst) && AllTight(p, st) && Tight(p, st, l) && Leg(p, l, c)
    requires |c.path| == |l.path| + 1
    ensures var st' := File(p, st, c);
      AllTight(p, st') && Tight(p, st', l)
  {
    hide Leg, Tight, Dominates, Undominated;
    var st' := File(p, st, c);
    ZeroFilesFairly(p, st, c);
    FileCovers(p, st, c);
    TightStays(p, st, st', l);
    forall x | x in st.queue ensures Tight(p, st', x.item) { TightStays(p, st, st', x.item); }
    if st'.queue != st.queue {
      QueuedTight(p, st, l, c);
    }
  }

  lemma RelaxTight(p: Problem, l: Label, k: Key, st: SearchState)
    requires ValidProblem(p) && p.eps == 0.0 && Separated(p.inst) && AllTight(p, st) && Tight(p, st, l)
    requires Offered(p, l, k) && k.1 < |p.inst.nodes|
    ensures var st' := Relax(p, l, k, st);
      AllTight(p, st') && Tight(p, st', l)
  {
    hide Tight, File, Arrive;
    var counted := st.(generated := st.generated + 1);
    RestTight(p, st, counted);
    TightStays(p, st, counted, l);
    var e := Extend(p, l, k.1, k.0);
    if e.Some? {
      FileTight(p, counted, l, e.value);
    } else {
      RestTight(p, st, Relax(p, l, k, st));
      TightStays(p, st, Relax(p, l, k, st), l);
    }
  }

  lemma {:induction false} RelaxAllTight(p: Problem, l: Label, ks: seq<Key>, st: SearchState)
    requires ValidProblem(p) && p.eps == 0.0 && Separated(p.inst) && AllTight(p, st) && Tight(p, st, l)
    requires forall k | k in ks :: Offered(p, l, k) && k.1 < |p.inst.nodes|
    ensures var st' := RelaxAll(p, l, ks, st);
      AllTight(p, st')
  {
    hide AllTight, Tight, Relax, StationMoves, Stations, Onward, Separated, Metric;
    if ks != [] {
      assert ks[0] in ks;
      RelaxTight(p, l, ks[0], st);
      RelaxAllTight(p, l, ks[1..], Relax(p, l, ks[0], st));
    }
  }

  lemma PopTight(p: Problem, st: SearchState, i: nat)
    requires ValidProblem(p) && p.eps == 0.0 && AllTight(p, st) && i < |st.queue|
    ensures var l, rest := st.queue[i].item, st.(queue := Without(st.queue, i)); AllTight(p, rest) && Tight(p, rest, l)
  {
    hide Tight, Metric;
    var l, rest := st.queue[i].item, st.(queue := Without(st.queue, i));
    assert st.queue[i] in st.queue;
    RestTight(p, st, rest);
    TightStays(p, st, rest, l);
  }

  /** Every turn keeps the labels in the queue free of repeats. */
  lemma IterateTight(p: Problem, st: SearchState)
    requires ValidProblem(p) && p.eps == 0.0 && Separated(p.inst) && AllTight(p, st) && st.queue != []
    ensures AllTight(p, Iterate(p, st))
  {
    hide AllTight, Tight, RelaxAll, Live, Cut, Separated, Metric, StationMoves, Stations, Onward;
    var i := MinIndex(st.queue);
    var l := st.queue[i].item;
    var rest := st.(queue := Without(st.queue, i));
    PopTight(p, st, i);
    if Live(st, l) && Cut(p, st, l) {
      CountersTight(p, rest, l, rest.expanded, st.pruned + 1);
    } else if Live(st, l) {
      CountersTight(p, rest, l, st.expanded + 1, rest.pruned);
      SuccessorsKnown(p, l);
      RelaxAllTight(p, l, Successors(p, l), rest.(expanded := st.expanded + 1));
    }
  }

  lemma CountersTight(p: Problem, st: SearchState, l: Label, expanded: nat, pruned: nat)
    requires Runnable(p) && AllTight(p, st) && Tight(p, st, l)
    ensures var st' := st.(expanded := expanded, pruned := pruned); AllTight(p, st') && Tight(p, st', l)
  {
    var st' := st.(expanded := expanded, pruned := pruned);
    RestTight(p, st, st');
    TightStays(p, st, st', l);
  }

  lemma RestTight(p: Problem, st: SearchState, rest: SearchState)
    requires Runnable(p) && AllTight(p, st) && rest.labels == st.labels && rest.best == st.best
    requires forall e | e in rest.queue :: e in st.queue
    ensures AllTight(p, rest)
  {
    forall e | e in rest.queue ensures Tight(p, rest, e.item) { TightStays(p, st, rest, e.item); }
  }

  // ---- the theorem ---------------------------------------------------------------------------------------

  /** A bound on the number of turns, from the sizes of the order and the network alone. */
  function TurnBound(p: Problem): nat { TurnsWithin(p, MaxLength(p)) }

  lemma PoppedLength(p: Problem, st: SearchState)
    requires ValidProblem(p) && p.eps == 0.0 && AllTight(p, st) && st.queue != []
    ensures |st.queue[MinIndex(st.queue)].item.path| <= MaxLength(p)
  {
    hide Tight, MaxLength;
    var i := MinIndex(st.queue);
    assert st.queue[i] in st.queue;
    LengthBound(p, st, st.queue[i].item);
  }

  lemma {:induction false} MassFalls(p: Problem, n: nat)
    requires ValidProblem(p) && p.eps == 0.0 && Separated(p.inst)
    ensures AllTight(p, After(p, n))
    ensures After(p, n).queue == [] || Mass(p, MaxLength(p), After(p, n).queue) + n <= TurnBound(p)
  {
    hide Mass, MaxLength, Iterate, Tight;
    if n == 0 {
      StartTight(p);
      StartWeighs(p, MaxLength(p));
    } else {
      MassFalls(p, n - 1);
      var st := After(p, n - 1);
      if st.queue != [] {
        IterateTight(p, st);
        PoppedLength(p, st);
        IterateLighter(p, MaxLength(p), st);
      } else {
        Idle(p, st);
      }
    }
  }

  lemma Idle(p: Problem, st: SearchState)
    requires Runnable(p) && st.queue == []
    ensures Iterate(p, st) == st && AllTight(p, st)
  {
  }

  lemma StartTight(p: Problem)
    requires ValidProblem(p)
    ensures AllTight(p, Start(p)) && MaxLength(p) > 0
  {
    var l := Initial(p);
    assert NoWorse(l, l) && l in Bucket(Start(p), KeyOf(l));
    assert TightBy(p, Start(p), l, [l]);
    assert (|p.order| + 1) * |p.inst.nodes| >= |p.inst.nodes|;
  }

  /** The number of turns is bounded by the sizes of the order and the network, whatever the time windows. */
  lemma TerminatesWithin(p: Problem)
    requires ValidProblem(p) && p.eps == 0.0 && Separated(p.inst)
    ensures After(p, TurnBound(p) + 1).queue == []
  {
    hide Mass, TurnBound;
    MassFalls(p, TurnBound(p) + 1);
  }
}
