/** How errors reach the caller: a call throws if and only if an index of it threw, a receipt or a flush was lost before it
    was over, or the pool turned it away. */
module PoolErrors {
  import opened Partition
  import opened WorkPool
  import opened PoolSteps
  import opened PoolGuarantees

  /** The pool cannot run the chunks of the call at all. */
  predicate Unusable(p: Pool, call: Call) { call.count > 0 && (p.threads == 0 || Chunks(p, call.count) > p.bound) }

  /** The step loses a receipt or fails to flush them. */
  predicate LosesReceipt(s: PoolState, a: Action) {
    match a
    case Submit(d, flushed) => d < |s.calls| && s.calls[d].count == 0 && !flushed && !s.receiptError
    case Shut(_, flushed) => !flushed
    case Record(_, recorded) => !recorded
    case EndNested(_, recorded) => !recorded
    case _ => false
  }

  /** The step gives a call that is not over a reason to throw: an index of it throws, a receipt is lost, or the call is
      turned away. */
  predicate Hurts(p: Pool, s: PoolState, a: Action, c: nat) {
    && c < |s.calls| && !Over(s.calls[c])
    && (|| LosesReceipt(s, a)
        || (a.RunIndex? && a.throws && a.w < |s.workers| && s.workers[a.w].Working? && s.workers[a.w].task.call == c)
        || (a.Submit? && a.c == c && Unusable(p, s.calls[c]))
        || ((a.Submit? || a.Retry?) && a.c == c && s.stopping && s.calls[c].count > 0))
  }

  /** Some step of the run hurts the call. */
  ghost predicate Hurt(p: Pool, s: PoolState, run: seq<Action>, c: nat)
    requires Possible(p, s, run)
    decreases |run|
  {
    run != [] && (Hurts(p, s, run[0], c) || Hurt(p, Apply(p, s, run[0]), run[1..], c))
  }

  /** A worker that will report an error of the call. */
  predicate FailsFor(w: Worker, c: nat) {
    match w
    case Working(t, _, failed, _) => failed && t.call == c
    case Recorded(t, recorded) => !recorded && t.call == c
    case Counted(t, recorded) => !recorded && t.call == c
    case _ => false
  }

  ghost predicate SomeFails(workers: seq<Worker>, c: nat) { exists w :: 0 <= w < |workers| && FailsFor(workers[w], c) }

  /** The call has thrown, or cannot but throw. */
  ghost predicate Doomed(s: PoolState, c: nat)
    requires c < |s.calls|
  {
    s.calls[c].point.Thrown? || (!s.calls[c].point.Returned? && (s.receiptError || s.calls[c].error || SomeFails(s.workers, c)))
  }

  /** No worker reports an error of a call of which it holds no chunk. */
  lemma FailingHolds(p: Pool, s: PoolState, c: nat)
    requires Inv(p, s) && c < |s.calls| && SomeFails(s.workers, c)
    ensures exists k | 0 <= k < |s.calls[c].chunks| :: s.calls[c].chunks[k].Held?
  {
    hide First, CallOk, RanOnce, WakeOk, QueueOk;
    var w :| 0 <= w < |s.workers| && FailsFor(s.workers[w], c);
    var t := Holding(s.workers[w]).value;
    assert Holder(s, w, t) && IsChunk(s, t, Held);
  }

  lemma OverHasNone(p: Pool, s: PoolState, c: nat)
    requires Inv(p, s) && c < |s.calls|
    ensures Over(s.calls[c]) || s.calls[c].point.Entering? || s.calls[c].point.WaitingForSpace? || s.calls[c].point.Closing?
      ==> !SomeFails(s.workers, c)
  {
    hide First, RunsOk, WorkerOk, WakeOk, QueueOk, HoldersOk;
    assert CallOk(p, s.calls[c]);
    if SomeFails(s.workers, c) {
      FailingHolds(p, s, c);
      NoneUnfinished(s.calls[c].chunks);
    }
  }

  /** What a step of a worker does to the errors its workers are to report. */
  lemma FailsStep(s: PoolState, t: PoolState, w: nat, c: nat)
    requires w < |s.workers| == |t.workers| && forall v | 0 <= v < |s.workers| && v != w :: t.workers[v] == s.workers[v]
    ensures SomeFails(t.workers, c) <==> FailsFor(t.workers[w], c) || exists v :: 0 <= v < |s.workers| && v != w && FailsFor(s.workers[v], c)
    ensures SomeFails(s.workers, c) <==> FailsFor(s.workers[w], c) || exists v :: 0 <= v < |s.workers| && v != w && FailsFor(s.workers[v], c)
  {
  }

  lemma SameFails(s: PoolState, t: PoolState, c: nat)
    requires |s.workers| == |t.workers| && forall v | 0 <= v < |s.workers| :: t.workers[v] == Awoken(s.workers[v]) || t.workers[v] == s.workers[v]
    ensures SomeFails(t.workers, c) <==> SomeFails(s.workers, c)
  {
    forall v | 0 <= v < |s.workers| ensures FailsFor(t.workers[v], c) <==> FailsFor(s.workers[v], c) { }
  }

  /** A caller's step. */
  lemma CallerDooms(p: Pool, s: PoolState, a: Action, c: nat)
    requires Inv(p, s) && Enabled(p, s, a) && c < |s.calls|
    requires a.Submit? || a.Retry? || a.Announce? || a.Observe? || a.Shut? || a.Stop?
    ensures c < |Apply(p, s, a).calls|
    ensures Doomed(Apply(p, s, a), c) <==> Doomed(s, c) || Hurts(p, s, a, c)
  {
    hide First, RunsOk, WorkerOk, WakeOk, QueueOk, HoldersOk, SomeFails, AllTasks;
    assert CallOk(p, s.calls[c]);
    OverHasNone(p, s, c);
    SameFails(s, Apply(p, s, a), c);
  }

  /** A worker's step, by what it does to the call and to the worker. */
  lemma WorkerDooms(p: Pool, s: PoolState, a: Action, c: nat)
    requires Inv(p, s) && Enabled(p, s, a) && c < |s.calls|
    requires a.RunIndex? || a.EndChunk? || a.Record? || a.Complete?
    ensures c < |Apply(p, s, a).calls|
    ensures Doomed(Apply(p, s, a), c) <==> Doomed(s, c) || Hurts(p, s, a, c)
  {
    hide First, Inv, SomeFails;
    OverHasNone(p, s, c);
    FailsStep(s, Apply(p, s, a), a.w, c);
  }

  lemma TakeDooms(p: Pool, s: PoolState, a: Action, c: nat)
    requires Inv(p, s) && Enabled(p, s, a) && c < |s.calls| && a.Take?
    ensures c < |Apply(p, s, a).calls|
    ensures Doomed(Apply(p, s, a), c) <==> Doomed(s, c)
  {
    hide First, Inv, SomeFails, HasCall;
    FailsStep(s, Apply(p, s, a), a.w, c);
  }

  lemma TakeHurtsNone(p: Pool, s: PoolState, a: Action, c: nat)
    requires a.Take?
    ensures !Hurts(p, s, a, c)
  {
  }

  lemma QuietDooms(p: Pool, s: PoolState, a: Action, c: nat)
    requires Inv(p, s) && Enabled(p, s, a) && c < |s.calls|
    requires a.Wake? || a.Activate? || a.Nest? || a.RunNested? || a.EndNested? || a.Deactivate?
    ensures c < |Apply(p, s, a).calls|
    ensures Doomed(Apply(p, s, a), c) <==> Doomed(s, c) || Hurts(p, s, a, c)
  {
    hide First, Inv, SomeFails, HasCall;
    OverHasNone(p, s, c);
    FailsStep(s, Apply(p, s, a), a.w, c);
  }

  /** A step dooms a call exactly by hurting it, and nothing undooms it. */
  lemma DoomedExactly(p: Pool, s: PoolState, a: Action, c: nat)
    requires Inv(p, s) && Enabled(p, s, a) && c < |s.calls|
    ensures c < |Apply(p, s, a).calls|
    ensures Doomed(Apply(p, s, a), c) <==> Doomed(s, c) || Hurts(p, s, a, c)
  {
    hide Inv, Enabled, Apply, Doomed, Hurts;
    if a.Submit? || a.Retry? || a.Announce? || a.Observe? || a.Shut? || a.Stop? {
      CallerDooms(p, s, a, c);
    } else if a.Take? {
      TakeDooms(p, s, a, c);
      TakeHurtsNone(p, s, a, c);
    } else if a.Wake? || a.Activate? || a.Nest? || a.RunNested? || a.EndNested? || a.Deactivate? {
      QuietDooms(p, s, a, c);
    } else {
      WorkerDooms(p, s, a, c);
    }
  }

  lemma {:induction false} DoomedByHurt(p: Pool, s: PoolState, run: seq<Action>, c: nat)
    requires Inv(p, s) && Possible(p, s, run) && c < |s.calls|
    ensures c < |After(p, s, run).calls|
    ensures Doomed(After(p, s, run), c) <==> Doomed(s, c) || Hurt(p, s, run, c)
    decreases |run|
  {
    hide Inv, Enabled, Apply, Doomed, Hurts;
    if run != [] {
      StepKeeps(p, s, run[0]);
      DoomedExactly(p, s, run[0], c);
      DoomedByHurt(p, Apply(p, s, run[0]), run[1..], c);
    }
  }

  /** A call that is over has thrown if and only if a step of the run hurt it: no error is swallowed and none made up. */
  lemma ThrownExactly(p: Pool, counts: seq<nat>, run: seq<Action>, c: nat)
    requires Possible(p, Start(p, counts), run) && c < |counts|
    ensures var s := After(p, Start(p, counts), run);
      && c < |s.calls| && (Hurt(p, Start(p, counts), run, c) ==> !s.calls[c].point.Returned?)
      && (Over(s.calls[c]) ==> (s.calls[c].point.Thrown? <==> Hurt(p, Start(p, counts), run, c)))
  {
    hide Inv, Enabled, Apply, Possible, Hurt, After;
    StartInv(p, counts);
    StartUnhurt(p, counts, c);
    DoomedByHurt(p, Start(p, counts), run, c);
  }

  lemma StartUnhurt(p: Pool, counts: seq<nat>, c: nat)
    requires c < |counts|
    ensures c < |Start(p, counts).calls| && !Doomed(Start(p, counts), c)
  {
  }

  // ---- calls turned away -------------------------------------------------------------------------------------

  /** The call has queued nothing and will not. */
  ghost predicate Barred(p: Pool, s: PoolState, c: nat) {
    && c < |s.calls| && Untouched(s.calls[c])
    && (s.stopping || s.calls[c].point.Thrown? || (s.calls[c].point.Entering? && (s.receiptError || Unusable(p, s.calls[c]))))
  }

  lemma BarredStays(p: Pool, s: PoolState, a: Action, c: nat)
    requires Inv(p, s) && Enabled(p, s, a) && Barred(p, s, c)
    ensures Barred(p, Apply(p, s, a), c)
  {
    hide Inv, First, Apply, Enabled;
    if a.Submit? || a.Retry? || a.Announce? || a.Observe? || a.Shut? || a.Stop? {
      BarredByCaller(p, s, a, c);
    } else if a.Take? {
      BarredByTake(p, s, a, c);
    } else {
      BarredByWorker(p, s, a, c);
    }
  }

  lemma BarredByCaller(p: Pool, s: PoolState, a: Action, c: nat)
    requires Inv(p, s) && Enabled(p, s, a) && Barred(p, s, c)
    requires a.Submit? || a.Retry? || a.Announce? || a.Observe? || a.Shut? || a.Stop?
    ensures Barred(p, Apply(p, s, a), c)
  {
    hide First, AllTasks, RunsOk, WorkerOk, WakeOk, QueueOk, HoldersOk;
    assert CallOk(p, s.calls[c]);
  }

  lemma BarredByTake(p: Pool, s: PoolState, a: Action, c: nat)
    requires Inv(p, s) && Enabled(p, s, a) && Barred(p, s, c) && a.Take?
    ensures Barred(p, Apply(p, s, a), c)
  {
    hide First, RunsOk, WorkerOk, WakeOk, CallOk, HoldersOk;
    assert s.queue != [] ==> s.queue[0] in s.queue && IsChunk(s, s.queue[0], Queued);
  }

  lemma BarredByWorker(p: Pool, s: PoolState, a: Action, c: nat)
    requires Inv(p, s) && Enabled(p, s, a) && Barred(p, s, c)
    requires !(a.Submit? || a.Retry? || a.Announce? || a.Observe? || a.Shut? || a.Stop? || a.Take?)
    ensures Barred(p, Apply(p, s, a), c)
  {
    hide First, Inv;
    if Holding(s.workers[a.w]).Some? { WorkersElsewhere(p, s, a.w, c); }
  }

  lemma WorkersElsewhere(p: Pool, s: PoolState, w: nat, c: nat)
    requires Inv(p, s) && c < |s.calls| && Untouched(s.calls[c]) && w < |s.workers| && Holding(s.workers[w]).Some?
    ensures Holding(s.workers[w]).value.call != c
  {
    hide First, RunsOk, CallOk, WakeOk, QueueOk;
    HoldsHeld(p, s, w);
  }

  /** A call that enters after a receipt was lost, at an unusable pool, or that has queued nothing when the pool stops,
      never runs an index (without threads no index is ever run). */
  lemma {:induction false} TurnedAwayRunsNothing(p: Pool, s: PoolState, run: seq<Action>, c: nat)
    requires Inv(p, s) && Possible(p, s, run) && Barred(p, s, c) && p.threads > 0
    ensures c < |After(p, s, run).calls|
    ensures var call := After(p, s, run).calls[c]; |call.runs| == call.count && forall i | 0 <= i < call.count :: call.runs[i] == 0
    decreases |run|
  {
    hide Inv, Enabled, Apply, Barred;
    if run == [] {
      UntouchedRan(p, s, c);
    } else {
      StepKeeps(p, s, run[0]);
      BarredStays(p, s, run[0], c);
      TurnedAwayRunsNothing(p, Apply(p, s, run[0]), run[1..], c);
    }
  }

  lemma UntouchedRan(p: Pool, s: PoolState, c: nat)
    requires Inv(p, s) && Barred(p, s, c) && p.threads > 0
    ensures c < |s.calls| && |s.calls[c].runs| == s.calls[c].count && forall i | 0 <= i < s.calls[c].count :: s.calls[c].runs[i] == 0
  {
    hide First;
    var call := s.calls[c];
    assert CallOk(p, call);
    forall i | 0 <= i < call.count ensures call.runs[i] == 0 {
      var n := Chunks(p, call.count);
      ChunksAdjacent(call.count, n, 0);
      var k := InSomeChunk(call.count, n, n, i);
      assert RanOnce(p, call, k, Begins(p, call.count, k));
    }
  }
}
