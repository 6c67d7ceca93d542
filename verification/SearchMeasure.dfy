/** A weighted sum over the queue: while popped paths stay within a depth, every turn makes it smaller, because all
    children of a label together weigh less than the label. */
module SearchMeasure {
  import opened EvrptwModel
  import opened PriorityQueue
  import opened ChargingSearch
  import opened ChargingExactness
  import opened Counting

  function Branching(p: Problem): nat { |Stations(p.inst)| + 2 }

  function Weight(p: Problem, depth: nat, l: Label): nat {
    if |l.path| <= depth then Pow(Branching(p), depth - |l.path|) else 0
  }

  function Mass(p: Problem, depth: nat, q: seq<Entry<Label>>): nat {
    if q == [] then 0 else Weight(p, depth, q[0].item) + Mass(p, depth, q[1..])
  }

  lemma {:induction false} MassSplit(p: Problem, depth: nat, q: seq<Entry<Label>>, r: seq<Entry<Label>>)
    ensures Mass(p, depth, q + r) == Mass(p, depth, q) + Mass(p, depth, r)
  {
    if q == [] {
      assert q + r == r;
    } else {
      assert (q + r)[1..] == q[1..] + r;
      MassSplit(p, depth, q[1..], r);
    }
  }

  lemma MassWithout(p: Problem, depth: nat, q: seq<Entry<Label>>, i: nat)
    requires i < |q|
    ensures Mass(p, depth, q) == Mass(p, depth, Without(q, i)) + Weight(p, depth, q[i].item)
  {
    MassSplit(p, depth, q[..i], q[i + 1..]);
    MassSplit(p, depth, q[..i], q[i..]);
    assert q == q[..i] + q[i..] && q[i..][1..] == q[i + 1..];
  }

  /** What one child weighs. */
  function ChildWeight(p: Problem, depth: nat, l: Label): nat {
    if |l.path| < depth then Pow(Branching(p), depth - |l.path| - 1) else 0
  }

  lemma FileWeighs(p: Problem, depth: nat, st: SearchState, l: Label, c: Label)
    requires |c.path| == |l.path| + 1
    ensures Mass(p, depth, File(p, st, c).queue) <= Mass(p, depth, st.queue) + ChildWeight(p, depth, l)
  {
    hide Dominates, Undominated;
    var st' := File(p, st, c);
    if st'.queue != st.queue {
      MassSplit(p, depth, st.queue, [Prioritized(c, st.serial)]);
      assert Mass(p, depth, [Prioritized(c, st.serial)]) == Weight(p, depth, c);
    }
  }

  lemma RelaxWeighs(p: Problem, depth: nat, l: Label, k: Key, st: SearchState)
    requires Runnable(p) && k.1 < |p.inst.nodes|
    ensures Mass(p, depth, Relax(p, l, k, st).queue) <= Mass(p, depth, st.queue) + ChildWeight(p, depth, l)
  {
    hide File, Arrive, ChildWeight, Mass;
    var e := Extend(p, l, k.1, k.0);
    if e.Some? { FileWeighs(p, depth, st.(generated := st.generated + 1), l, e.value); }
  }

  lemma {:induction false} RelaxAllWeighs(p: Problem, depth: nat, l: Label, ks: seq<Key>, st: SearchState)
    requires Runnable(p) && forall k | k in ks :: k.1 < |p.inst.nodes|
    ensures Mass(p, depth, RelaxAll(p, l, ks, st).queue) <= Mass(p, depth, st.queue) + |ks| * ChildWeight(p, depth, l)
  {
    hide Relax, ChildWeight, Mass;
    if ks != [] {
      assert ks[0] in ks;
      RelaxWeighs(p, depth, l, ks[0], st);
      RelaxAllWeighs(p, depth, l, ks[1..], Relax(p, l, ks[0], st));
      OneMore(|ks[1..]|, ChildWeight(p, depth, l));
    }
  }

  lemma OneMore(n: nat, w: nat)
    ensures (n + 1) * w == n * w + w
  {
  }

  lemma Heavier(children: nat, b: nat, n: nat)
    requires children < b
    ensures n > 0 ==> children * Pow(b, n - 1) < Pow(b, n)
    ensures Pow(b, n) > 0
  {
    if n > 0 {
      var w := Pow(b, n - 1);
      assert b * w == children * w + (b - children) * w && (b - children) * w > 0;
    }
  }

  /** Popping takes off more weight than all the children of the popped label can bring back. */
  lemma PopLighter(p: Problem, depth: nat, st: SearchState, i: nat)
    requires i < |st.queue| && |st.queue[i].item.path| <= depth
    ensures var l, rest := st.queue[i].item, Without(st.queue, i);
      && Mass(p, depth, rest) < Mass(p, depth, st.queue)
      && Mass(p, depth, rest) + |Successors(p, l)| * ChildWeight(p, depth, l) < Mass(p, depth, st.queue)
  {
    hide Mass, StationMoves, Stations, Onward;
    var l := st.queue[i].item;
    MassWithout(p, depth, st.queue, i);
    Heavier(|Successors(p, l)|, Branching(p), depth - |l.path|);
  }

  /** Every turn that pops a path within the depth takes weight off the queue. */
  lemma IterateLighter(p: Problem, depth: nat, st: SearchState)
    requires ValidProblem(p) && st.queue != [] && |st.queue[MinIndex(st.queue)].item.path| <= depth
    ensures Mass(p, depth, Iterate(p, st).queue) < Mass(p, depth, st.queue)
  {
    hide RelaxAll, Mass, Live, Cut, Metric, StationMoves, Stations, Onward, ChildWeight;
    var i := MinIndex(st.queue);
    var l := st.queue[i].item;
    PopLighter(p, depth, st, i);
    SuccessorsKnown(p, l);
    RelaxAllWeighs(p, depth, l, Successors(p, l), st.(queue := Without(st.queue, i), expanded := st.expanded + 1));
  }

  /** The weight of the queue a search begins with: more turns than this it never takes. */
  function TurnsWithin(p: Problem, depth: nat): nat {
    if depth == 0 then 0 else Pow(Branching(p), depth - 1)
  }

  lemma StartWeighs(p: Problem, depth: nat)
    requires Runnable(p) && depth > 0
    ensures Mass(p, depth, Start(p).queue) == TurnsWithin(p, depth)
  {
    var q := Start(p).queue;
    assert Mass(p, depth, q) == Weight(p, depth, q[0].item) + Mass(p, depth, q[1..]);
  }
}
