/** Exactness: neither dominance pruning nor the best-so-far cut loses an optimal pattern. */
module ChargingExactness {
  import opened Options
  import opened EvrptwModel
  import opened PriorityQueue
  import opened ChargingSearch

  // ---- soundness: everything the search holds was walked -----------------------------------------------

  /** A route under construction. */
  ghost predicate Open(p: Problem, l: Label)
    requires Runnable(p)
  {
    Walk(p, l.path) == Some(l) && !Complete(p, l)
  }

  ghost predicate ByKey(st: SearchState) {
    forall k, l | k in st.labels && l in st.labels[k] :: KeyOf(l) == k
  }

  ghost predicate Sound(p: Problem, st: SearchState)
    requires Runnable(p)
  {
    && ByKey(st)
    && (forall k, l | k in st.labels && l in st.labels[k] :: Open(p, l))
    && (forall e | e in st.queue :: Open(p, e.item))
    && (st.best.Some? ==> Walk(p, st.best.value.path) == st.best && Complete(p, st.best.value))
  }

  lemma ExtensionIsWalk(p: Problem, l: Label, k: Key)
    requires ValidProblem(p) && Open(p, l) && Offered(p, l, k)
    ensures k.1 < |p.inst.nodes|
    ensures var e := Extend(p, l, k.1, k.0);
      e.Some? ==> Walk(p, l.path + [k.1]) == e
  {
    assert (l.path + [k.1])[..|l.path|] == l.path;
  }

  lemma FileSound(p: Problem, st: SearchState, c: Label)
    requires ValidProblem(p) && Sound(p, st) && Walk(p, c.path) == Some(c) && |c.path| > 1
    ensures Sound(p, File(p, st, c))
  {
    assert Complete(p, c) <==> IsTerminal(p, c.progress, c.node);
    hide Walk, Dominates, Complete, IsTerminal, BetterTerminal;
  }

  lemma CountersSound(p: Problem, st: SearchState, generated: nat, expanded: nat, pruned: nat)
    requires ValidProblem(p) && Sound(p, st)
    ensures Sound(p, st.(generated := generated, expanded := expanded, pruned := pruned))
  {
  }

  lemma RelaxSound(p: Problem, l: Label, k: Key, st: SearchState)
    requires ValidProblem(p) && Sound(p, st) && Open(p, l) && Offered(p, l, k)
    ensures k.1 < |p.inst.nodes| && Sound(p, Relax(p, l, k, st))
  {
    hide File, ByKey, Offered, Arrive;
    ExtensionIsWalk(p, l, k);
    CountersSound(p, st, st.generated + 1, st.expanded, st.pruned);
    CountersSound(p, st, st.generated + 1, st.expanded, st.pruned + 1);
    var e := Extend(p, l, k.1, k.0);
    if e.Some? {
      FileSound(p, st.(generated := st.generated + 1), e.value);
    }
  }

  lemma {:induction false} RelaxAllSound(p: Problem, l: Label, ks: seq<Key>, st: SearchState)
    requires ValidProblem(p) && Sound(p, st) && Open(p, l)
    requires forall k | k in ks :: Offered(p, l, k)
    ensures forall k | k in ks :: k.1 < |p.inst.nodes|
    ensures Sound(p, RelaxAll(p, l, ks, st))
  {
    forall k | k in ks ensures k.1 < |p.inst.nodes| { ExtensionIsWalk(p, l, k); }
    if ks != [] {
      RelaxSound(p, l, ks[0], st);
      RelaxAllSound(p, l, ks[1..], Relax(p, l, ks[0], st));
    }
  }

  lemma PopSound(p: Problem, st: SearchState, i: nat)
    requires ValidProblem(p) && Sound(p, st) && i < |st.queue|
    ensures Open(p, st.queue[i].item) && Sound(p, st.(queue := Without(st.queue, i)))
  {
    assert st.queue[i] in st.queue;
    assert forall e | e in Without(st.queue, i) :: e in st.queue;
  }

  lemma IterateSound(p: Problem, st: SearchState)
    requires ValidProblem(p) && Sound(p, st)
    ensures Sound(p, Iterate(p, st))
  {
    hide Open, Sound, RelaxAll, Cut, Live, Without;
    if st.queue != [] {
      var i := MinIndex(st.queue);
      var l := st.queue[i].item;
      var rest := st.(queue := Without(st.queue, i));
      PopSound(p, st, i);
      if Live(st, l) && Cut(p, st, l) {
        CountersSound(p, rest, st.generated, st.expanded, st.pruned + 1);
      } else if Live(st, l) {
        CountersSound(p, rest, st.generated, st.expanded + 1, st.pruned);
        RelaxAllSound(p, l, Successors(p, l), rest.(expanded := st.expanded + 1));
      }
    }
  }

  /** At every turn, for every tolerance: all held labels are walks, the incumbent a complete one. */
  lemma {:induction false} AlwaysSound(p: Problem, n: nat)
    requires ValidProblem(p)
    ensures Sound(p, After(p, n))
  {
    if n > 0 {
      AlwaysSound(p, n - 1);
      IterateSound(p, After(p, n - 1));
    }
  }

  // ---- coverage: nothing cheaper is lost -----------------------------------------------------------------

  predicate NoWorse(l: Label, r: Label) {
    l.time <= r.time && l.battery >= r.battery && l.distance <= r.distance
  }

  /** A label that dominates another at the tolerance is in fact no worse than it. */
  ghost predicate Fair(p: Problem)
    requires Runnable(p)
  {
    forall q, r | Walk(p, q).Some? && Walk(p, r).Some? :: FairTo(p.eps, Walk(p, q).value, Walk(p, r).value)
  }

  predicate FairTo(eps: real, l: Label, r: Label) { KeyOf(l) == KeyOf(r) ==> Harmless(eps, l, r) }

  predicate Harmless(eps: real, l: Label, r: Label) { Dominates(eps, l, r) ==> NoWorse(l, r) }

  /** Filing a label prunes none that is better in something. */
  ghost predicate FiledFairly(p: Problem, st: SearchState, c: Label) {
    forall m | m in Bucket(st, KeyOf(c)) :: Harmless(p.eps, m, c) && Harmless(p.eps, c, m)
  }

  /** Arriving no later with no less charge: the same leg stays possible and ends no later with no less charge. */
  lemma ArriveMonotone(inst: Instance, eps: real, t: real, b: real, t': real, b': real, origin: nat, dest: nat)
    requires WellFormed(inst) && dest < |inst.nodes| && t <= t' && b >= b'
    requires Arrive(inst, eps, t', b', origin, dest).Some?
    ensures var a, a' := Arrive(inst, eps, t, b, origin, dest), Arrive(inst, eps, t', b', origin, dest).value;
      a.Some? && a.value.time <= a'.time && a.value.battery >= a'.battery
  {
    hide Metric, Energy, Travel;
    var energy := Energy(inst, origin, dest);
    var x, y := inst.vehicle.battery - Max(0.0, b - energy), inst.vehicle.battery - Max(0.0, b' - energy);
    var e, e' := Max(t + Travel(inst, origin, dest), inst.nodes[dest].ready), Max(t' + Travel(inst, origin, dest), inst.nodes[dest].ready);
    ChargeMonotone(e, e', x, y, inst.vehicle.refuelRate);
  }

  lemma ChargeMonotone(e: real, e': real, x: real, y: real, rate: real)
    requires e <= e' && x <= y && rate >= 0.0
    ensures e + x * rate <= e' + y * rate
  {
    var c, d := x * rate, y * rate;
    assert c <= d by { MulMono(x, y, rate); }
    assert e + c <= e' + d;
  }

  /** Extension is monotone: a label that is no worse can make every leg the other can. */
  lemma ExtendMonotone(p: Problem, m: Label, l: Label, k: Key)
    requires ValidProblem(p) && NoWorse(m, l) && m.node == l.node && k.1 < |p.inst.nodes|
    requires Extend(p, l, k.1, k.0).Some?
    ensures var e, f := Extend(p, m, k.1, k.0), Extend(p, l, k.1, k.0).value;
      e.Some? && NoWorse(e.value, f) && KeyOf(e.value) == KeyOf(f)
  {
    ArriveMonotone(p.inst, p.eps, m.time, m.battery, l.time, l.battery, l.node, k.1);
  }

  ghost predicate Covered(st: SearchState, c: Label) {
    exists m | m in Bucket(st, KeyOf(c)) :: NoWorse(m, c)
  }

  /** A feasible candidate is accounted for: beaten by the incumbent, or by a live label. */
  ghost predicate Kept(p: Problem, st: SearchState, c: Label) {
    if IsTerminal(p, c.progress, c.node) then st.best.Some? && st.best.value.distance <= c.distance
    else Covered(st, c)
  }

  ghost predicate KeptMove(p: Problem, st: SearchState, l: Label, k: Key)
    requires Runnable(p)
  {
    k.1 < |p.inst.nodes| && Extend(p, l, k.1, k.0).Some? ==> Kept(p, st, Extend(p, l, k.1, k.0).value)
  }

  ghost predicate Settled(p: Problem, st: SearchState, l: Label)
    requires Runnable(p)
  {
    Cut(p, st, l) || forall k | k in Successors(p, l) :: KeptMove(p, st, l, k)
  }

  ghost predicate Queued(st: SearchState, l: Label) { exists e | e in st.queue :: e.item == l }

  ghost predicate Closed(p: Problem, st: SearchState)
    requires Runnable(p)
  {
    forall l | Live(st, l) :: Queued(st, l) || Settled(p, st, l)
  }

  /** The incumbent only improves and coverage is never given up. */
  ghost predicate Grows(st: SearchState, st': SearchState) {
    && (forall c :: Covered(st, c) ==> Covered(st', c))
    && (st.best.Some? ==> st'.best.Some? && st'.best.value.distance <= st.best.value.distance)
  }

  /** Newly live labels are queued and nothing leaves the queue. */
  ghost predicate Feeds(st: SearchState, st': SearchState) {
    && (forall m | Live(st', m) :: Live(st, m) || Queued(st', m))
    && (forall m | Queued(st, m) :: Queued(st', m))
  }

  lemma FileCovers(p: Problem, st: SearchState, c: Label)
    requires FiledFairly(p, st, c)
    ensures Grows(st, File(p, st, c)) && Feeds(st, File(p, st, c)) && Kept(p, File(p, st, c), c)
  {
    var st' := File(p, st, c);
    if !IsTerminal(p, c.progress, c.node) && st'.serial == st.serial {
      var m :| m in Bucket(st, KeyOf(c)) && Dominates(p.eps, m, c);
      assert NoWorse(m, c);
    }
    if st'.serial > st.serial {
      assert c in Bucket(st', KeyOf(c)) && NoWorse(c, c);
      assert st'.queue[|st.queue|] == Prioritized(c, st.serial);
      forall x | Covered(st, x) ensures Covered(st', x) {
        var m :| m in Bucket(st, KeyOf(x)) && NoWorse(m, x);
        if KeyOf(x) == KeyOf(c) {
          assert c in Bucket(st', KeyOf(x));
          assert m in Bucket(st', KeyOf(x)) || NoWorse(c, x);
        } else {
          assert m in Bucket(st', KeyOf(x));
        }
      }
    }
  }

  lemma FairToHeld(p: Problem, st: SearchState, c: Label)
    requires ValidProblem(p) && Fair(p) && Sound(p, st) && Walk(p, c.path) == Some(c)
    ensures FiledFairly(p, st, c)
  {
    hide Walk, Harmless, Complete;
    forall m | m in Bucket(st, KeyOf(c)) ensures Harmless(p.eps, m, c) && Harmless(p.eps, c, m) {
      assert Open(p, m) && Walk(p, m.path).Some? && Walk(p, c.path).Some?;
    }
  }

  lemma RelaxCovers(p: Problem, l: Label, k: Key, st: SearchState)
    requires ValidProblem(p) && Fair(p) && Sound(p, st) && Open(p, l) && Offered(p, l, k)
    ensures k.1 < |p.inst.nodes|
    ensures var st' := Relax(p, l, k, st); Grows(st, st') && Feeds(st, st') && KeptMove(p, st', l, k)
  {
    hide Extend, File, Fair, FairTo, Sound, Open, Offered, Walk;
    ExtensionIsWalk(p, l, k);
    var counted := st.(generated := st.generated + 1);
    CountersSound(p, st, st.generated + 1, st.expanded, st.pruned);
    var e := Extend(p, l, k.1, k.0);
    if e.Some? {
      FairToHeld(p, counted, e.value);
      FileCovers(p, counted, e.value);
    }
    assert forall m :: Covered(counted, m) <==> Covered(st, m);
    assert forall m :: Live(counted, m) <==> Live(st, m);
    assert forall m :: Queued(counted, m) <==> Queued(st, m);
  }

  lemma {:induction false} RelaxAllCovers(p: Problem, l: Label, ks: seq<Key>, st: SearchState)
    requires ValidProblem(p) && Fair(p) && Sound(p, st) && Open(p, l)
    requires forall k | k in ks :: Offered(p, l, k)
    ensures forall k | k in ks :: k.1 < |p.inst.nodes|
    ensures var st' := RelaxAll(p, l, ks, st);
      Grows(st, st') && Feeds(st, st') && forall k | k in ks :: KeptMove(p, st', l, k)
  {
    hide Relax, KeptMove, Covered, Live, Queued, Fair, Sound, Open, Offered;
    RelaxAllSound(p, l, ks, st);
    if ks != [] {
      RelaxSound(p, l, ks[0], st);
      var next := Relax(p, l, ks[0], st);
      RelaxCovers(p, l, ks[0], st);
      RelaxAllCovers(p, l, ks[1..], next);
      KeptStays(p, next, RelaxAll(p, l, ks, st), l, ks[0]);
      assert forall k | k in ks :: k == ks[0] || k in ks[1..];
    }
  }

  lemma KeptStays(p: Problem, st: SearchState, st': SearchState, l: Label, k: Key)
    requires Runnable(p) && Grows(st, st') && KeptMove(p, st, l, k)
    ensures KeptMove(p, st', l, k)
  {
  }

  lemma SettledStays(p: Problem, st: SearchState, st': SearchState, l: Label)
    requires Runnable(p) && Grows(st, st') && Settled(p, st, l)
    ensures Settled(p, st', l)
  {
    if !Cut(p, st, l) {
      forall k | k in Successors(p, l) ensures KeptMove(p, st', l, k) { KeptStays(p, st, st', l, k); }
    }
  }

  lemma SuccessorsKnown(p: Problem, l: Label)
    requires ValidProblem(p)
    ensures forall k | k in Successors(p, l) :: k.1 < |p.inst.nodes|
  {
  }

  lemma IterateCovers(p: Problem, st: SearchState)
    requires ValidProblem(p) && Fair(p) && Sound(p, st) && Closed(p, st)
    ensures Grows(st, Iterate(p, st)) && Closed(p, Iterate(p, st))
  {
    hide Fair, Sound, Open, Successors;
    var st' := Iterate(p, st);
    if st.queue != [] {
      var i := MinIndex(st.queue);
      var l := st.queue[i].item;
      var rest := st.(queue := Without(st.queue, i));
      QueueWithout(st, i);
      if !Live(st, l) {
      } else if Cut(p, st, l) {
      } else {
        PopSound(p, st, i);
        CountersSound(p, rest, st.generated, st.expanded + 1, st.pruned);
        RelaxAllCovers(p, l, Successors(p, l), rest.(expanded := st.expanded + 1));
      }
      forall m | Live(st', m) && !Queued(st', m) ensures Settled(p, st', m) {
        assert Live(st, m);
        if m != l { SettledStays(p, st, st', m); }
      }
    }
  }

  lemma QueueWithout(st: SearchState, i: nat)
    requires i < |st.queue|
    ensures forall m | Queued(st, m) :: m == st.queue[i].item || Queued(st.(queue := Without(st.queue, i)), m)
  {
    var rest := Without(st.queue, i);
    forall m | Queued(st, m) ensures m == st.queue[i].item || exists e | e in rest :: e.item == m {
      var j :| 0 <= j < |st.queue| && st.queue[j].item == m;
      if j < i { assert rest[j] == st.queue[j]; }
      if j > i { assert rest[j - 1] == st.queue[j]; }
    }
  }

  lemma StartClosed(p: Problem)
    requires ValidProblem(p)
    ensures Closed(p, Start(p)) && Covered(Start(p), Initial(p))
  {
    assert Start(p).queue[0].item == Initial(p);
    assert Initial(p) in Bucket(Start(p), KeyOf(Initial(p)));
  }

  lemma {:induction false} AlwaysClosed(p: Problem, n: nat)
    requires ValidProblem(p) && Fair(p)
    ensures Closed(p, After(p, n)) && Covered(After(p, n), Initial(p))
  {
    hide Closed, Covered, Iterate, Start, Fair, Sound;
    if n == 0 {
      StartClosed(p);
    } else {
      AlwaysClosed(p, n - 1);
      AlwaysSound(p, n - 1);
      IterateCovers(p, After(p, n - 1));
    }
  }

  // ---- the theorem ----------------------------------------------------------------------------------------

  /** One more leg of a walk: what matched the prefix yields what matches the whole. */
  lemma StepCovered(p: Problem, st: SearchState, before: Label, k: Key)
    requires ValidProblem(p) && p.eps >= 0.0 && ByKey(st) && Closed(p, st) && st.queue == []
    requires Covered(st, before) && Offered(p, before, k) && k.1 < |p.inst.nodes|
    requires Extend(p, before, k.1, k.0).Some?
    ensures var l := Extend(p, before, k.1, k.0).value;
      (st.best.Some? && st.best.value.distance <= l.distance + p.eps) || (!IsTerminal(p, k.0, k.1) && Covered(st, l))
  {
    var l := Extend(p, before, k.1, k.0).value;
    var m :| m in Bucket(st, KeyOf(before)) && NoWorse(m, before);
    assert KeyOf(m) == KeyOf(before) && Offered(p, m, k) && Live(st, m);
    ExtendMonotone(p, m, before, k);
    if Cut(p, st, m) {
      assert st.best.value.distance <= m.distance + p.eps <= before.distance + p.eps <= l.distance + p.eps;
    } else {
      assert KeptMove(p, st, m, k);
      var e := Extend(p, m, k.1, k.0).value;
      if !IsTerminal(p, k.0, k.1) {
        CoveredByNoWorse(st, e, l);
      }
    }
  }

  lemma CoveredByNoWorse(st: SearchState, e: Label, l: Label)
    requires Covered(st, e) && NoWorse(e, l) && KeyOf(e) == KeyOf(l)
    ensures Covered(st, l)
  {
    var m :| m in Bucket(st, KeyOf(e)) && NoWorse(m, e);
    assert NoWorse(m, l);
  }

  /** In a finished search every walk is matched: by the incumbent, or by a live label no worse than it. */
  lemma {:induction false} WalkCovered(p: Problem, st: SearchState, path: seq<nat>)
    requires ValidProblem(p) && p.eps >= 0.0 && ByKey(st) && Closed(p, st) && Covered(st, Initial(p)) && st.queue == []
    requires Walk(p, path).Some?
    ensures var l := Walk(p, path).value;
      (st.best.Some? && st.best.value.distance <= l.distance + p.eps) || (!Complete(p, l) && Covered(st, l))
  {
    if |path| > 1 {
      var prefix, dest := path[..|path| - 1], path[|path| - 1];
      var before := Walk(p, prefix).value;
      WalkCovered(p, st, prefix);
      if !(st.best.Some? && st.best.value.distance <= before.distance + p.eps) {
        StepCovered(p, st, before, (NextProgress(p, before, dest), dest));
      }
    }
  }

  /** Where dominance is fair, a finished search has a route exactly when some station-insertion pattern is feasible, the
      route it has is such a pattern, and no pattern is shorter by more than the tolerance. */
  lemma Exactness(p: Problem, n: nat)
    requires ValidProblem(p) && p.eps >= 0.0 && Fair(p) && After(p, n).queue == []
    ensures var best := After(p, n).best;
      && (best.Some? ==> Walk(p, best.value.path) == best && Complete(p, best.value))
      && (forall path | Walk(p, path).Some? && Complete(p, Walk(p, path).value) ::
            best.Some? && best.value.distance <= Walk(p, path).value.distance + p.eps)
  {
    hide Walk, Fair, Closed, Covered;
    AlwaysSound(p, n);
    AlwaysClosed(p, n);
    forall path | Walk(p, path).Some? && Complete(p, Walk(p, path).value)
      ensures After(p, n).best.Some? && After(p, n).best.value.distance <= Walk(p, path).value.distance + p.eps
    {
      WalkCovered(p, After(p, n), path);
    }
  }

  lemma ZeroFilesFairly(p: Problem, st: SearchState, c: Label)
    requires p.eps == 0.0
    ensures FiledFairly(p, st, c)
  {
  }

  /** At tolerance zero dominance is fair. */
  lemma ZeroIsFair(p: Problem)
    requires Runnable(p) && p.eps == 0.0
    ensures Fair(p)
  {
  }
}
