/** Where the labels go: every label generated is pruned, completed or still held. */
module LabelAccounts {
  import opened EvrptwModel
  import opened PriorityQueue
  import opened ChargingSearch
  import opened ChargingExactness
  import opened SearchAgreement
  import opened BestSoFar

  /** Labels held at one progress on the first `n` nodes. */
  function HeldAt(st: SearchState, progress: nat, n: nat): nat {
    if n == 0 then 0 else HeldAt(st, progress, n - 1) + |Bucket(st, (progress, n - 1))|
  }

  /** Labels held on all nodes below a progress. */
  function HeldBelow(st: SearchState, nodes: nat, progress: nat): nat {
    if progress == 0 then 0 else HeldBelow(st, nodes, progress - 1) + HeldAt(st, progress - 1, nodes)
  }

  function Held(p: Problem, st: SearchState): nat { HeldBelow(st, |p.inst.nodes|, |p.order| + 1) }

  /** Turns that took a live label off the queue without expanding it. */
  ghost function Cuts(p: Problem, n: nat): nat
    requires ValidProblem(p)
  {
    if n == 0 then 0
    else
      var st := After(p, n - 1);
      Cuts(p, n - 1) + if Expanded(p, st).None? && st.queue != [] && Live(st, st.queue[MinIndex(st.queue)].item) then 1 else 0
  }

  // ---- sums ------------------------------------------------------------------------------------------------

  lemma {:induction false} HeldAtSet(st: SearchState, t: SearchState, k: Key, progress: nat, n: nat)
    requires forall j: Key | j != k :: Bucket(t, j) == Bucket(st, j)
    ensures HeldAt(t, progress, n) + (if progress == k.0 && k.1 < n then |Bucket(st, k)| else 0)
      == HeldAt(st, progress, n) + if progress == k.0 && k.1 < n then |Bucket(t, k)| else 0
  {
    hide Bucket;
    if n > 0 {
      HeldAtSet(st, t, k, progress, n - 1);
      if (progress, n - 1) != k { assert Bucket(t, (progress, n - 1)) == Bucket(st, (progress, n - 1)); }
    }
  }

  lemma {:induction false} HeldBelowSet(st: SearchState, t: SearchState, k: Key, nodes: nat, progress: nat)
    requires k.1 < nodes && forall j: Key | j != k :: Bucket(t, j) == Bucket(st, j)
    ensures HeldBelow(t, nodes, progress) + (if k.0 < progress then |Bucket(st, k)| else 0)
      == HeldBelow(st, nodes, progress) + if k.0 < progress then |Bucket(t, k)| else 0
  {
    hide Bucket;
    if progress > 0 {
      HeldBelowSet(st, t, k, nodes, progress - 1);
      HeldAtSet(st, t, k, progress - 1, nodes);
    }
  }

  lemma SameHeld(p: Problem, st: SearchState, t: SearchState)
    requires t.labels == st.labels
    ensures Held(p, t) == Held(p, st)
  {
    SameBelow(st, t, |p.inst.nodes|, |p.order| + 1);
  }

  lemma {:induction false} SameBelow(st: SearchState, t: SearchState, nodes: nat, progress: nat)
    requires t.labels == st.labels
    ensures HeldBelow(t, nodes, progress) == HeldBelow(st, nodes, progress)
  {
    if progress > 0 {
      SameBelow(st, t, nodes, progress - 1);
      HeldAtSet(st, t, (progress, 0), progress - 1, nodes);
    }
  }

  // ---- the account -----------------------------------------------------------------------------------------

  /** One label filed. */
  lemma FileAccounts(p: Problem, st: SearchState, c: Label)
    requires c.progress <= |p.order| && c.node < |p.inst.nodes|
    ensures var t := File(p, st, c);
      t.pruned + Held(p, t) + (if IsTerminal(p, c.progress, c.node) then 1 else 0) == st.pruned + Held(p, st) + 1
  {
    hide Dominates, BetterTerminal, Held, IsTerminal;
    var t := File(p, st, c);
    if t.labels == st.labels {
      SameHeld(p, st, t);
      FileSame(p, st, c);
    } else {
      FiledHeld(p, st, t, KeyOf(c));
    }
  }

  lemma FileSame(p: Problem, st: SearchState, c: Label)
    requires File(p, st, c).labels == st.labels
    ensures File(p, st, c).pruned + (if IsTerminal(p, c.progress, c.node) then 1 else 0) == st.pruned + 1
  {
    hide Dominates, BetterTerminal;
    var t := File(p, st, c);
    if !IsTerminal(p, c.progress, c.node) && t.serial > st.serial {
      var survivors := Undominated(p.eps, Bucket(st, KeyOf(c)), c);
      assert Bucket(t, KeyOf(c)) == survivors + [c] && |Bucket(t, KeyOf(c))| == |Bucket(st, KeyOf(c))|;
    }
  }

  lemma FiledHeld(p: Problem, st: SearchState, t: SearchState, k: Key)
    requires k.0 <= |p.order| && k.1 < |p.inst.nodes| && forall j: Key | j != k :: Bucket(t, j) == Bucket(st, j)
    ensures Held(p, t) + |Bucket(st, k)| == Held(p, st) + |Bucket(t, k)|
  {
    hide Bucket;
    HeldBelowSet(st, t, k, |p.inst.nodes|, |p.order| + 1);
  }

  lemma RelaxAccounts(p: Problem, l: Label, k: Key, st: SearchState)
    requires ValidProblem(p) && k.1 < |p.inst.nodes| && k.0 <= |p.order|
    ensures var t := Relax(p, l, k, st);
      t.pruned + Held(p, t) + |CompletedBy(p, l, [k])| == st.pruned + Held(p, st) + 1
  {
    hide Arrive, File, Held, Metric, IsTerminal;
    var counted := st.(generated := st.generated + 1);
    SameHeld(p, st, counted);
    SameHeld(p, st, counted.(pruned := counted.pruned + 1));
    var e := Extend(p, l, k.1, k.0);
    assert [k][1..] == [] && CompletedBy(p, l, []) == [];
    assert CompletedBy(p, l, [k]) == if e.Some? && IsTerminal(p, k.0, k.1) then [e.value] else [];
    if e.Some? { FileAccounts(p, counted, e.value); }
  }

  lemma {:induction false} RelaxAllAccounts(p: Problem, l: Label, ks: seq<Key>, st: SearchState)
    requires ValidProblem(p) && forall k | k in ks :: k.1 < |p.inst.nodes| && k.0 <= |p.order|
    ensures var t := RelaxAll(p, l, ks, st);
      t.pruned + Held(p, t) + |CompletedBy(p, l, ks)| == st.pruned + Held(p, st) + |ks|
  {
    hide Relax, Held, Metric, Extend;
    if ks != [] {
      RelaxAccounts(p, l, ks[0], st);
      RelaxAllAccounts(p, l, ks[1..], Relax(p, l, ks[0], st));
      var first := [ks[0]];
      assert first[1..] == [] && CompletedBy(p, l, []) == [];
      assert CompletedBy(p, l, ks) == CompletedBy(p, l, first) + CompletedBy(p, l, ks[1..]);
    }
  }

  lemma MovesPlaced(p: Problem, n: nat)
    requires ValidProblem(p) && Expanded(p, After(p, n)).Some?
    ensures forall k | k in MovesFrom(p, Expanded(p, After(p, n)).value) :: k.1 < |p.inst.nodes| && k.0 <= |p.order|
  {
    hide Walk, After, Metric, Complete;
    AlwaysSound(p, n);
    var l := Expanded(p, After(p, n)).value;
    assert After(p, n).queue[MinIndex(After(p, n).queue)] in After(p, n).queue;
    WalkPlaced(p, l.path);
  }

  /** At every turn, for every tolerance: labels generated, and turns cut off, make up labels pruned, held and completed. */
  lemma {:induction false} EveryLabelCounts(p: Problem, n: nat)
    requires ValidProblem(p)
    ensures var st := After(p, n); st.generated + Cuts(p, n) == st.pruned + Held(p, st) + |Completions(p, n)|
  {
    hide Held, Expanded, MovesFrom, CompletedBy, Metric, Iterate, Live, Start, Completions;
    if n == 0 {
      StartHeld(p);
    } else {
      EveryLabelCounts(p, n - 1);
      TurnAccounts(p, n - 1);
    }
  }

  lemma StartHeld(p: Problem)
    requires ValidProblem(p)
    ensures var st := After(p, 0); st.generated == 1 && st.pruned == 0 && Held(p, st) == 1 && Completions(p, 0) == []
  {
    hide Metric, Held;
    var st := Start(p);
    var none := st.(labels := map[]);
    FiledHeld(p, none, st, (0, p.inst.depot));
    NoneHeld(none, |p.inst.nodes|, |p.order| + 1);
    assert Held(p, none) == 0 by { HeldIs(p, none); }
  }

  lemma HeldIs(p: Problem, st: SearchState)
    ensures Held(p, st) == HeldBelow(st, |p.inst.nodes|, |p.order| + 1)
  {
  }

  lemma {:induction false} NoneHeld(st: SearchState, nodes: nat, progress: nat)
    requires st.labels == map[]
    ensures HeldBelow(st, nodes, progress) == 0
  {
    if progress > 0 {
      NoneHeld(st, nodes, progress - 1);
      NoneHeldAt(st, progress - 1, nodes);
    }
  }

  lemma {:induction false} NoneHeldAt(st: SearchState, progress: nat, n: nat)
    requires st.labels == map[]
    ensures HeldAt(st, progress, n) == 0
  {
    if n > 0 { NoneHeldAt(st, progress, n - 1); }
  }

  lemma TurnAccounts(p: Problem, n: nat)
    requires ValidProblem(p)
    ensures var s, t := After(p, n), After(p, n + 1);
      t.generated + Cuts(p, n + 1) + s.pruned + Held(p, s) + |Completions(p, n)|
      == s.generated + Cuts(p, n) + t.pruned + Held(p, t) + |Completions(p, n + 1)|
  {
    hide Held, Metric, Iterate, Start, Expanded, MovesFrom, CompletedBy, Live;
    var s, l := After(p, n), Expanded(p, After(p, n));
    TurnCounts(p, n);
    if l.Some? {
      var popped := s.(queue := Without(s.queue, MinIndex(s.queue)), expanded := s.expanded + 1);
      MovesPlaced(p, n);
      ExpandingTurn(p, s);
      SameHeld(p, s, popped);
      RelaxAllAccounts(p, l.value, MovesFrom(p, l.value), popped);
    } else {
      SameHeld(p, s, After(p, n + 1));
    }
  }
}
