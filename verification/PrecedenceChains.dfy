/** What the precedence bound is: the duration of the longest chain of activities that must follow one another. */
module PrecedenceChains {
  import opened RcpspModel
  import opened ScheduleEnvelope

  /** Positions of a plan, each activity a predecessor of the next. */
  ghost predicate Chained(p: Project, x: Plan, chain: seq<nat>) {
    && chain != [] && (forall k | 0 <= k < |chain| :: chain[k] < |x.order| && x.order[chain[k]] in p.activities)
    && (forall k | 0 < k < |chain| :: x.order[chain[k - 1]] in p.activities[x.order[chain[k]]].predecessors)
  }

  /** How long a chain takes at least. */
  function Duration(p: Project, x: Plan, chain: seq<nat>): nat
    requires |x.modes| == |x.order| && forall k | 0 <= k < |chain| :: chain[k] < |x.order|
  {
    if chain == [] then 0 else Duration(p, x, chain[..|chain| - 1]) + DurationAt(p, x, chain[|chain| - 1])
  }

  lemma {:induction false} EndsPositive(p: Project, x: Plan, ends: map<nat, int>, i: nat)
    requires ValidPlan(x) && Screened(p, x) && EarliestEnds(p, x, ends, |x.order|) && i < |x.order|
    ensures x.order[i] in ends && ends[x.order[i]] >= DurationAt(p, x, i)
    decreases i
  {
    hide DurationAt, LatestOf, ModeOf;
    var a := x.order[i];
    assert EarliestAt(p, x, ends, i);
    var predecessors := p.activities[a].predecessors;
    if predecessors != [] {
      var b :| b in predecessors && LatestOf(ends, predecessors) == ends[b];
      var j := Before(p, x, i, b);
      EndsPositive(p, x, ends, j);
    }
  }

  /** A predecessor stands earlier in a screened plan. */
  lemma Before(p: Project, x: Plan, i: nat, b: nat) returns (j: nat)
    requires ValidPlan(x) && Screened(p, x) && i < |x.order| && x.order[i] in p.activities && b in p.activities[x.order[i]].predecessors
    ensures j < i && x.order[j] == b
  {
    hide ModeOf;
    j :| 0 <= j < i && x.order[..i][j] == b;
  }

  /** No chain to an activity takes longer than until its earliest end. */
  lemma {:induction false} ChainWithin(p: Project, x: Plan, ends: map<nat, int>, chain: seq<nat>)
    requires ValidPlan(x) && Screened(p, x) && EarliestEnds(p, x, ends, |x.order|) && Chained(p, x, chain)
    ensures x.order[chain[|chain| - 1]] in ends && Duration(p, x, chain) <= ends[x.order[chain[|chain| - 1]]]
    decreases |chain|
  {
    hide DurationAt, LatestOf, ModeOf, Screened;
    var n := |chain| - 1;
    var i := chain[n];
    assert EarliestAt(p, x, ends, i);
    if n == 0 {
      assert chain[..0] == [];
      EndsPositive(p, x, ends, i);
    } else {
      ChainWithin(p, x, ends, chain[..n]);
      assert x.order[chain[n - 1]] in p.activities[x.order[i]].predecessors;
    }
  }

  /** Some chain to the activity takes exactly that long. */
  lemma {:induction false} ChainAttains(p: Project, x: Plan, ends: map<nat, int>, i: nat) returns (chain: seq<nat>)
    requires ValidPlan(x) && Screened(p, x) && EarliestEnds(p, x, ends, |x.order|) && i < |x.order|
    ensures Chained(p, x, chain) && chain[|chain| - 1] == i && x.order[i] in ends && Duration(p, x, chain) == ends[x.order[i]]
    decreases i
  {
    hide DurationAt, LatestOf, ModeOf, Screened;
    assert EarliestAt(p, x, ends, i);
    var predecessors := p.activities[x.order[i]].predecessors;
    if predecessors == [] {
      chain := [i];
      assert chain[..0] == [];
    } else {
      var b :| b in predecessors && LatestOf(ends, predecessors) == ends[b];
      var j := Before(p, x, i, b);
      var front := ChainAttains(p, x, ends, j);
      chain := front + [i];
      assert chain[..|chain| - 1] == front;
    }
  }

  /** The bound of a plan is the duration of its longest chain. */
  lemma BoundIsLongestChain(p: Project, x: Plan, ends: map<nat, int>, bound: int) returns (longest: seq<nat>)
    requires ValidPlan(x) && Screened(p, x) && EarliestEnds(p, x, ends, |x.order|)
    requires (forall a | a in ends :: ends[a] <= bound) && exists a | a in ends :: ends[a] == bound
    ensures Chained(p, x, longest) && Duration(p, x, longest) == bound
    ensures forall chain | Chained(p, x, chain) :: Duration(p, x, chain) <= bound
  {
    hide DurationAt, LatestOf, ModeOf, Screened, EarliestAt, Duration;
    var a :| a in ends && ends[a] == bound;
    var i :| 0 <= i < |x.order| && x.order[..|x.order|][i] == a;
    longest := ChainAttains(p, x, ends, i);
    forall chain | Chained(p, x, chain) ensures Duration(p, x, chain) <= bound { ChainWithin(p, x, ends, chain); }
  }
}
