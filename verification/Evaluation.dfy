/** Evaluating the candidates of a round: in one batch, in chunks behind a barrier, or through an ordered window.
    Tasks may finish in any order. */
module Evaluation {
  import opened Options
  import opened Partition
  import opened RuntimeContracts
  import opened WorkLedger

  datatype Results = Values(states: seq<State>) | Failure(fault: Fault)

  /** How an evaluation ends: with values, or aborted with work still running and the room for such work. */
  datatype Evaluation = Completed(states: seq<State>) | Aborted(fault: Fault, postBoundary: nat, capacity: nat)

  /** A round's candidates and the physical faults that strike some of them. */
  datatype Batch = Batch(oracle: Oracle, candidates: seq<Candidate>, fault: nat -> Option<Fault>)

  function OutcomeAt(b: Batch, i: nat): Outcome
    requires i < |b.candidates|
  {
    if b.fault(i).Some? then Raised(b.fault(i).value) else b.oracle.evaluate(b.candidates[i])
  }

  /** One oracle call on a range of candidates: all values in order, or the first failure. */
  function EvaluateRange(b: Batch, first: nat, last: nat): (r: Results)
    requires first <= last <= |b.candidates|
    ensures r.Values? ==> |r.states| == last - first
    decreases last - first
  {
    if first == last then Values([])
    else
      match EvaluateRange(b, first, last - 1)
      case Failure(f) => Failure(f)
      case Values(states) =>
        match OutcomeAt(b, last - 1)
        case Raised(f) => Failure(f)
        case Evaluated(s) => Values(states + [s])
  }

  function EvaluateAll(b: Batch): Results { EvaluateRange(b, 0, |b.candidates|) }

  /** Two adjoining ranges together. */
  function Then(a: Results, b: Results): Results {
    if a.Failure? then a else if b.Failure? then b else Values(a.states + b.states)
  }

  lemma {:induction false} RangeSplits(b: Batch, first: nat, mid: nat, last: nat)
    requires first <= mid <= last <= |b.candidates|
    ensures EvaluateRange(b, first, last) == Then(EvaluateRange(b, first, mid), EvaluateRange(b, mid, last))
    decreases last - mid
  {
    if mid < last {
      RangeSplits(b, first, mid, last - 1);
    }
  }

  /** The result is all values, in order, or the fault of the first candidate that fails. */
  lemma {:induction false} FirstFailureWins(b: Batch, n: nat)
    requires n <= |b.candidates|
    ensures match EvaluateRange(b, 0, n)
      case Values(states) => forall i | 0 <= i < n :: OutcomeAt(b, i) == Evaluated(states[i])
      case Failure(f) => exists i | 0 <= i < n ::
        OutcomeAt(b, i) == Raised(f) && forall j | 0 <= j < i :: OutcomeAt(b, j).Evaluated?
  {
    if n > 0 {
      FirstFailureWins(b, n - 1);
      match EvaluateRange(b, 0, n - 1)
      case Values(states) => assert OutcomeAt(b, n - 1).Raised? ==> forall j | 0 <= j < n - 1 :: OutcomeAt(b, j).Evaluated?;
      case Failure(f) =>
        var i :| 0 <= i < n - 1 && OutcomeAt(b, i) == Raised(f) && forall j | 0 <= j < i :: OutcomeAt(b, j).Evaluated?;
    }
  }

  // ---- futures ---------------------------------------------------------------------------------------------

  /** Submitted tasks are ranges of candidates; those done hold what their call returned. */
  ghost predicate Futures(b: Batch, tasks: seq<(nat, nat)>, done: map<nat, Results>) {
    && (forall t | 0 <= t < |tasks| :: tasks[t].0 <= tasks[t].1 <= |b.candidates|)
    && (forall t | t in done :: t < |tasks| && done[t] == EvaluateRange(b, tasks[t].0, tasks[t].1))
  }

  function Below(n: nat): (s: set<nat>)
    ensures forall i: nat :: i in s <==> i < n
  {
    if n == 0 then {} else Below(n - 1) + {n - 1}
  }

  /** Waiting for one future while any others finish, in the order `choose` dictates. */
  method Await(b: Batch, tasks: seq<(nat, nat)>, done: map<nat, Results>, k: nat, choose: nat -> nat, tick: nat)
    returns (result: Results, done': map<nat, Results>, tick': nat)
    requires Futures(b, tasks, done) && k < |tasks|
    ensures Futures(b, tasks, done') && k in done' && done.Keys <= done'.Keys
    ensures result == EvaluateRange(b, tasks[k].0, tasks[k].1)
  {
    done', tick' := done, tick;
    while k !in done' || (choose(tick') < |tasks| && choose(tick') !in done')
      invariant Futures(b, tasks, done') && done.Keys <= done'.Keys
      decreases Below(|tasks|) - done'.Keys
    {
      var t := if choose(tick') < |tasks| && choose(tick') !in done' then choose(tick') else k;
      ghost var before := done'.Keys;
      done' := done'[t := EvaluateRange(b, tasks[t].0, tasks[t].1)];
      assert t in Below(|tasks|) - before;
      tick' := tick' + 1;
    }
    result := done'[k];
  }

  // ---- the three modes -------------------------------------------------------------------------------------

  /** What every mode promises: the result of the whole range, all work started or the reservation given back, and
      the work still running within its room. */
  ghost predicate Settles(b: Batch, work: seq<nat>, r: Evaluation, startedBefore: nat, started: nat, reserved: nat) {
    && (match EvaluateAll(b)
        case Values(states) => r == Completed(states) && started == startedBefore + Total(work)
        case Failure(f) => r.Aborted? && r.fault == f && startedBefore <= started <= startedBefore + Total(work)
                           && r.postBoundary <= r.capacity && r.postBoundary <= Total(work))
    && reserved == 0
  }

  method EvaluateSerial(b: Batch, work: seq<nat>, ledger: BudgetLedger) returns (r: Evaluation)
    requires |work| == |b.candidates| && ledger.Valid() && ledger.reservedUnits == Total(work)
    modifies ledger
    ensures ledger.Valid() && Settles(b, work, r, old(ledger.startedUnits), ledger.startedUnits, ledger.reservedUnits)
  {
    var failure := ledger.Start(Total(work));
    assert failure.None?;
    match EvaluateRange(b, 0, |b.candidates|)
    case Values(states) => r := Completed(states);
    case Failure(f) =>
      var _ := ledger.ReleaseReserved();
      r := Aborted(f, 0, 0);
  }

  /** The work of the tasks that are not done. */
  function PendingWork(work: seq<nat>, tasks: seq<(nat, nat)>, done: set<nat>): nat
    requires forall t | 0 <= t < |tasks| :: tasks[t].0 <= tasks[t].1 <= |work|
  {
    if tasks == [] then 0
    else
      var last := |tasks| - 1;
      PendingWork(work, tasks[..last], done) + if last in done then 0 else Total(work[tasks[last].0..tasks[last].1])
  }

  predicate AdjoinsAt(tasks: seq<(nat, nat)>, t: nat)
    requires t < |tasks|
  {
    tasks[t].0 <= tasks[t].1 && tasks[t].0 == if t == 0 then 0 else tasks[t - 1].1
  }

  ghost predicate Adjoining(tasks: seq<(nat, nat)>) { forall t | 0 <= t < |tasks| :: AdjoinsAt(tasks, t) }

  /** Adjoining tasks carry no more than the work up to their end. */
  lemma {:induction false} PendingBound(work: seq<nat>, tasks: seq<(nat, nat)>, done: set<nat>)
    requires tasks != [] && Adjoining(tasks) && forall t | 0 <= t < |tasks| :: tasks[t].0 <= tasks[t].1 <= |work|
    ensures PendingWork(work, tasks, done) <= Total(work[..tasks[|tasks| - 1].1])
  {
    var last := |tasks| - 1;
    assert AdjoinsAt(tasks, last);
    TotalSplits(work, tasks[last].0, tasks[last].1);
    if last > 0 {
      AdjoiningPrefix(tasks, last);
      PendingBound(work, tasks[..last], done);
    }
  }

  lemma AdjoiningPrefix(tasks: seq<(nat, nat)>, n: nat)
    requires Adjoining(tasks) && n <= |tasks|
    ensures Adjoining(tasks[..n])
  {
    forall t | 0 <= t < n ensures AdjoinsAt(tasks[..n], t) { assert AdjoinsAt(tasks, t); }
  }

  lemma TotalSplits(work: seq<nat>, i: nat, j: nat)
    requires i <= j <= |work|
    ensures Total(work[..j]) == Total(work[..i]) + Total(work[i..j])
  {
    assert work[..j] == work[..i] + work[i..j];
    TotalAppend(work[..i], work[i..j]);
  }

  lemma TotalPrefix(work: seq<nat>, i: nat)
    requires i <= |work|
    ensures Total(work[..i]) <= Total(work)
  {
    TotalSplits(work, i, |work|);
    assert work[..|work|] == work;
  }

  method EvaluateBarrier(b: Batch, work: seq<nat>, ledger: BudgetLedger, workers: nat, choose: nat -> nat) returns (r: Evaluation)
    requires |work| == |b.candidates| > 0 && workers > 0 && ledger.Valid() && ledger.reservedUnits == Total(work)
    modifies ledger
    ensures ledger.Valid() && Settles(b, work, r, old(ledger.startedUnits), ledger.startedUnits, ledger.reservedUnits)
  {
    hide Total, EvaluateRange, First;
    var tasks := ContiguousChunks(|b.candidates|, workers);
    ChunksAdjoin(|b.candidates|, tasks);
    assert work[..0] == [] && work[..|work|] == work;
    TotalNone();
    for t := 0 to |tasks|
      invariant ledger.Valid()
      invariant ledger.startedUnits == old(ledger.startedUnits) + Total(work[..if t == 0 then 0 else tasks[t - 1].1])
      invariant ledger.reservedUnits + Total(work[..if t == 0 then 0 else tasks[t - 1].1]) == Total(work)
    {
      assert AdjoinsAt(tasks, t);
      TotalSplits(work, tasks[t].0, tasks[t].1);
      TotalPrefix(work, tasks[t].1);
      var failure := ledger.Start(Total(work[tasks[t].0..tasks[t].1]));
      assert failure.None?;
    }
    var ordered: seq<State>, done: map<nat, Results>, tick := [], map[], 0;
    RangeEmpty(b);
    for t := 0 to |tasks|
      invariant Futures(b, tasks, done) && ledger.Valid() && ledger.reservedUnits == 0
      invariant ledger.startedUnits == old(ledger.startedUnits) + Total(work)
      invariant EvaluateRange(b, 0, if t == 0 then 0 else tasks[t - 1].1) == Values(ordered)
    {
      var result;
      result, done, tick := Await(b, tasks, done, t, choose, tick);
      assert AdjoinsAt(tasks, t);
      RangeSplits(b, 0, tasks[t].0, tasks[t].1);
      if result.Failure? {
        BarrierAborts(b, work, tasks, t, done.Keys, result.fault, old(ledger.startedUnits));
        var _ := ledger.ReleaseReserved();
        return Aborted(result.fault, PendingWork(work, tasks, done.Keys), Total(work));
      }
      ordered := ordered + result.states;
    }
    r := Completed(ordered);
  }

  lemma BarrierAborts(b: Batch, work: seq<nat>, tasks: seq<(nat, nat)>, t: nat, done: set<nat>, f: Fault, before: nat)
    requires |work| == |b.candidates| && t < |tasks| && Adjoining(tasks) && tasks[|tasks| - 1].1 == |work|
    requires forall s | 0 <= s < |tasks| :: tasks[s].0 <= tasks[s].1 <= |work|
    requires EvaluateRange(b, 0, tasks[t].1) == Failure(f)
    ensures Settles(b, work, Aborted(f, PendingWork(work, tasks, done), Total(work)), before, before + Total(work), 0)
  {
    hide Total, EvaluateRange, PendingWork;
    RangeSplits(b, 0, tasks[t].1, |b.candidates|);
    PendingBound(work, tasks, done);
    assert work[..|work|] == work;
  }

  lemma TotalNone()
    ensures Total([]) == 0
  {
  }

  lemma RangeEmpty(b: Batch)
    ensures EvaluateRange(b, 0, 0) == Values([])
  {
  }

  lemma ChunksAdjoin(n: nat, tasks: seq<(nat, nat)>)
    requires tasks != [] && tasks[0].0 == 0 && tasks[|tasks| - 1].1 == n
    requires forall c | 0 <= c < |tasks| :: tasks[c] == (First(n, |tasks|, c), First(n, |tasks|, c + 1))
    ensures Adjoining(tasks) && forall t | 0 <= t < |tasks| :: tasks[t].0 <= tasks[t].1 <= n
  {
    hide First;
    forall c | 0 <= c < |tasks| ensures tasks[c].0 <= tasks[c].1 <= n && AdjoinsAt(tasks, c) {
      FirstMonotone(n, |tasks|, c, c + 1);
      FirstMonotone(n, |tasks|, c + 1, |tasks|);
    }
  }

  /** At most `width` evaluations are open; results are taken in order and the window refilled. */
  method EvaluateOrdered(b: Batch, work: seq<nat>, ledger: BudgetLedger, workers: nat, window: nat, choose: nat -> nat)
    returns (r: Evaluation)
    requires |work| == |b.candidates| > 0 && workers > 0 && window > 0
    requires ledger.Valid() && ledger.reservedUnits == Total(work)
    modifies ledger
    ensures ledger.Valid() && Settles(b, work, r, old(ledger.startedUnits), ledger.startedUnits, ledger.reservedUnits)
  {
    hide Total, EvaluateRange, PendingWork;
    var n := |b.candidates|;
    var width := Least(Least(workers, window), n);
    var tasks: seq<(nat, nat)>, ordered: seq<State>, done: map<nat, Results>, tick := [], [], map[], 0;
    assert work[..0] == [] && work[..n] == work;
    TotalNone();
    RangeEmpty(b);
    tasks := FillWindow(b, work, ledger, tasks, 0, width);
    for i := 0 to n
      invariant Singles(tasks) && |tasks| == Least(n, i + width) && Futures(b, tasks, done)
      invariant EvaluateRange(b, 0, i) == Values(ordered)
      invariant ledger.Valid() && ledger.startedUnits == old(ledger.startedUnits) + Total(work[..|tasks|])
      invariant ledger.reservedUnits + Total(work[..|tasks|]) == Total(work)
    {
      var result;
      result, done, tick := Await(b, tasks, done, i, choose, tick);
      RangeSplits(b, 0, i, i + 1);
      if result.Failure? {
        OrderedAborts(b, work, i, |tasks|, width, done.Keys, result.fault, old(ledger.startedUnits), ledger.startedUnits);
        var _ := ledger.ReleaseReserved();
        return Aborted(result.fault, WindowWork(work, i + 1, |tasks|, done.Keys), width * Largest(work));
      }
      ordered := ordered + result.states;
      tasks := FillWindow(b, work, ledger, tasks, i + 1, width);
    }
    r := Completed(ordered);
  }

  /** Task `t` is candidate `t` alone. */
  ghost predicate Singles(tasks: seq<(nat, nat)>) {
    forall t | 0 <= t < |tasks| :: tasks[t] == (t, t + 1)
  }

  method FillWindow(b: Batch, work: seq<nat>, ledger: BudgetLedger, tasks: seq<(nat, nat)>, collected: nat, width: nat)
    returns (more: seq<(nat, nat)>)
    requires |work| == |b.candidates| && ledger.Valid() && Singles(tasks) && collected <= |work|
    requires |tasks| <= Least(|work|, collected + width)
    requires ledger.reservedUnits + Total(work[..|tasks|]) == Total(work)
    modifies ledger
    ensures ledger.Valid() && Singles(more) && |more| == Least(|work|, collected + width) && tasks <= more
    ensures ledger.startedUnits + Total(work[..|tasks|]) == old(ledger.startedUnits) + Total(work[..|more|])
    ensures ledger.reservedUnits + Total(work[..|more|]) == Total(work)
  {
    more := tasks;
    while |more| < |b.candidates| && |more| - collected < width
      invariant ledger.Valid() && Singles(more) && tasks <= more && |more| <= Least(|work|, collected + width)
      invariant ledger.startedUnits + Total(work[..|tasks|]) == old(ledger.startedUnits) + Total(work[..|more|])
      invariant ledger.reservedUnits + Total(work[..|more|]) == Total(work)
    {
      var i := |more|;
      assert work[..i + 1][..i] == work[..i];
      TotalPrefix(work, i + 1);
      var failure := ledger.Start(work[i]);
      assert failure.None?;
      more := more + [(i, i + 1)];
    }
  }

  /** The work of the candidates in the window that are not done. */
  function WindowWork(work: seq<nat>, first: nat, last: nat, done: set<nat>): nat
    requires last <= |work|
    decreases last
  {
    if last <= first then 0
    else WindowWork(work, first, last - 1, done) + if last - 1 in done then 0 else work[last - 1]
  }

  lemma {:induction false} WindowBound(work: seq<nat>, first: nat, last: nat, done: set<nat>)
    requires first <= last <= |work| && work != []
    ensures WindowWork(work, first, last, done) <= (last - first) * Largest(work)
    ensures WindowWork(work, first, last, done) <= Total(work[..last])
    decreases last
  {
    if first < last {
      WindowBound(work, first, last - 1, done);
      assert (last - first) * Largest(work) == (last - 1 - first) * Largest(work) + Largest(work);
      assert work[..last][..last - 1] == work[..last - 1];
    }
  }

  /** An aborted window: what is still running fits into the window and into the round's work. */
  lemma OrderedAborts(b: Batch, work: seq<nat>, i: nat, submitted: nat, width: nat, done: set<nat>, f: Fault, before: nat, started: nat)
    requires |work| == |b.candidates| && i < submitted <= |work| && submitted <= i + width
    requires EvaluateRange(b, 0, i + 1) == Failure(f) && started == before + Total(work[..submitted])
    ensures Settles(b, work, Aborted(f, WindowWork(work, i + 1, submitted, done), width * Largest(work)), before, started, 0)
  {
    hide Total, EvaluateRange, WindowWork;
    RangeSplits(b, 0, i + 1, |b.candidates|);
    TotalPrefix(work, submitted);
    WindowBound(work, i + 1, submitted, done);
    Scaled(submitted - (i + 1), width, Largest(work));
  }

  lemma Scaled(a: nat, b: nat, k: nat)
    requires a <= b
    ensures a * k <= b * k
  {
    assert (b - a) * k >= 0;
  }

  /** The mode only decides how the batch is run. */
  method EvaluateCandidates(b: Batch, work: seq<nat>, ledger: BudgetLedger, c: Config, choose: nat -> nat) returns (r: Evaluation)
    requires |work| == |b.candidates| > 0 && ValidConfig(c) && ledger.Valid() && ledger.reservedUnits == Total(work)
    modifies ledger
    ensures ledger.Valid() && Settles(b, work, r, old(ledger.startedUnits), ledger.startedUnits, ledger.reservedUnits)
  {
    hide Total, EvaluateRange, Settles;
    if c.mode.Serial? || b.oracle.internalParallelism {
      r := EvaluateSerial(b, work, ledger);
    } else if c.mode.Barrier? {
      r := EvaluateBarrier(b, work, ledger, c.workers, choose);
    } else {
      r := EvaluateOrdered(b, work, ledger, c.workers, c.window, choose);
    }
  }
}
