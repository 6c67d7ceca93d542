/** What the pool guarantees under every interleaving: exactly-once execution, bounded queue, no deadlock. */
module PoolGuarantees {
  import opened Options
  import opened Partition
  import opened WorkPool
  import opened PoolSteps

  // ---- every interleaving ------------------------------------------------------------------------------------

  lemma StepKeeps(p: Pool, s: PoolState, a: Action)
    requires Inv(p, s) && Enabled(p, s, a)
    ensures Inv(p, Apply(p, s, a))
  {
    hide Inv, Apply, First;
    match a
    case Submit(c, _) =>
      if !s.receiptError && s.calls[c].count > 0 && 0 < Chunks(p, s.calls[c].count) <= p.bound
         && !s.stopping && |s.queue| + Chunks(p, s.calls[c].count) <= p.bound {
        EnqueueKeeps(p, s, c);
        SubmitsBatch(p, s, c);
      } else {
        CallerKeeps(p, s, a);
      }
    case Retry(c) =>
      if !s.stopping && |s.queue| + Chunks(p, s.calls[c].count) <= p.bound {
        WaitingHasChunks(p, s, c);
        EnqueueKeeps(p, s, c);
        SubmitsBatch(p, s, c);
      } else {
        CallerKeeps(p, s, a);
      }
    case Announce(c) => AnnounceKeeps(p, s, c);
    case Observe(c) => CallerKeeps(p, s, a);
    case Shut(c, _) => CallerKeeps(p, s, a);
    case Take(w, waiter) => if s.queue == [] { RestKeeps(p, s, w, waiter); } else { PopKeeps(p, s, w, waiter); }
    case Wake(w) => QuietWorkerKeeps(p, s, a);
    case Activate(w) => QuietWorkerKeeps(p, s, a);
    case RunIndex(w, throws) => RunKeeps(p, s, w, throws);
    case Nest(w, _) => QuietWorkerKeeps(p, s, a);
    case RunNested(w, _) => QuietWorkerKeeps(p, s, a);
    case EndNested(w, _) => QuietWorkerKeeps(p, s, a);
    case EndChunk(w) => ChunkEndKeeps(p, s, a);
    case Record(w, _) => ChunkEndKeeps(p, s, a);
    case Deactivate(w) => QuietWorkerKeeps(p, s, a);
    case Complete(w) => CompleteKeeps(p, s, w);
    case Stop =>
      StopKeeps(p, s);
      Stopped(p, s);
  }

  lemma WaitingHasChunks(p: Pool, s: PoolState, c: nat)
    requires Inv(p, s) && c < |s.calls| && s.calls[c].point.WaitingForSpace?
    ensures 0 < Chunks(p, s.calls[c].count)
  {
    assert CallOk(p, s.calls[c]);
  }

  lemma SubmitsBatch(p: Pool, s: PoolState, c: nat)
    requires c < |s.calls|
    ensures Enabled(p, s, Retry(c)) ==> Apply(p, s, Retry(c)) == Enqueue(p, s, c)
    ensures !s.receiptError && s.calls[c].count > 0 && 0 < Chunks(p, s.calls[c].count) <= p.bound ==>
      forall flushed | Enabled(p, s, Submit(c, flushed)) :: Apply(p, s, Submit(c, flushed)) == Enqueue(p, s, c)
  {
  }

  /** A pool with all workers awake, and callers that have not entered yet. */
  function Start(p: Pool, counts: seq<nat>): PoolState {
    PoolState([], seq(p.threads, w => Awake), seq(|counts|, c requires 0 <= c < |counts| => NewCall(p, counts[c])), 0, false, false)
  }

  function NewCall(p: Pool, count: nat): Call {
    Call(count, Entering, 0, false, seq(count, i => 0), seq(Chunks(p, count), k => Unqueued), seq(Chunks(p, count), k => false))
  }

  lemma {:induction false} NoneActive(workers: seq<Worker>)
    requires forall w | 0 <= w < |workers| :: !IsActive(workers[w])
    ensures ActiveCount(workers) == 0
  {
    if workers != [] { NoneActive(workers[..|workers| - 1]); }
  }

  lemma StartInv(p: Pool, counts: seq<nat>)
    ensures Inv(p, Start(p, counts))
  {
    hide First;
    var s := Start(p, counts);
    NoneActive(s.workers);
    forall c | 0 <= c < |s.calls| ensures CallOk(p, s.calls[c]) { NewCallOk(p, counts[c]); }
    assert forall t :: !IsChunk(s, t, Queued) && !IsChunk(s, t, Held);
    assert forall w, t :: !Holder(s, w, t);
  }

  lemma NewCallOk(p: Pool, count: nat)
    ensures CallOk(p, NewCall(p, count))
  {
    hide First;
    var call, n := NewCall(p, count), Chunks(p, count);
    forall k | 0 <= k < |call.chunks| ensures RanOnce(p, call, k, Begins(p, count, k)) {
      FirstMonotone(count, n, k, k + 1);
      FirstMonotone(count, n, k + 1, n);
    }
  }

  /** A run: any sequence of steps, each possible when it happens. */
  ghost predicate Possible(p: Pool, s: PoolState, run: seq<Action>)
    decreases |run|
  {
    run == [] || (Enabled(p, s, run[0]) && Possible(p, Apply(p, s, run[0]), run[1..]))
  }

  ghost function After(p: Pool, s: PoolState, run: seq<Action>): PoolState
    requires Possible(p, s, run)
    decreases |run|
  {
    if run == [] then s else After(p, Apply(p, s, run[0]), run[1..])
  }

  lemma {:induction false} AlwaysInv(p: Pool, s: PoolState, run: seq<Action>)
    requires Inv(p, s) && Possible(p, s, run)
    ensures Inv(p, After(p, s, run))
    decreases |run|
  {
    hide Inv, Apply, Enabled;
    if run != [] {
      StepKeeps(p, s, run[0]);
      AlwaysInv(p, Apply(p, s, run[0]), run[1..]);
    }
  }

  /** A normal return means that every index was run exactly once and every chunk left its receipt; and at any time the
      queue is within its bound. */
  lemma NormalReturn(p: Pool, counts: seq<nat>, run: seq<Action>, c: nat)
    requires Possible(p, Start(p, counts), run) && c < |After(p, Start(p, counts), run).calls|
    ensures var s := After(p, Start(p, counts), run);
      |s.queue| <= p.bound
    ensures var call := After(p, Start(p, counts), run).calls[c];
      call.point.Returned? ==>
        |call.runs| == call.count && (forall i | 0 <= i < call.count :: call.runs[i] == 1)
        && forall k | 0 <= k < |call.receipts| :: call.receipts[k]
  {
    hide Possible, After, First;
    StartInv(p, counts);
    AlwaysInv(p, Start(p, counts), run);
    var s := After(p, Start(p, counts), run);
    var call := s.calls[c];
    assert CallOk(p, call);
    if call.point.Returned? {
      forall i | 0 <= i < call.count ensures call.runs[i] == 1 { ReturnedRan(p, call, i); }
    }
  }

  lemma ReturnedRan(p: Pool, call: Call, i: nat)
    requires CallOk(p, call) && call.point.Returned? && i < call.count
    ensures call.runs[i] == 1
  {
    hide First;
    var n := Chunks(p, call.count);
    ChunksAdjacent(call.count, n, 0);
    var k := InSomeChunk(call.count, n, n, i);
    assert call.chunks[k].Finished?;
    assert RanOnce(p, call, k, Begins(p, call.count, k + 1));
  }

  // ---- nobody waits for ever -----------------------------------------------------------------------------------

  /** A step its own thread takes unasked: neither the end of the pool, nor a new nested call, nor a spurious wake-up. */
  predicate Unasked(s: PoolState, a: Action) {
    !a.Stop? && !a.Nest? && !a.Wake? && (a.Retry? ==> IsNotified(s, a.c))
  }

  predicate Over(call: Call) { call.point.Returned? || call.point.Thrown? }

  predicate ByWorker(a: Action, w: nat) {
    match a
    case Activate(v) => v == w
    case RunIndex(v, _) => v == w
    case RunNested(v, _) => v == w
    case EndNested(v, _) => v == w
    case EndChunk(v) => v == w
    case Record(v, _) => v == w
    case Deactivate(v) => v == w
    case Complete(v) => v == w
    case _ => false
  }

  /** A worker with a task can always go on by itself: it never waits for a queue slot, a lock holder or another chunk,
      however deep its nested calls. */
  lemma WorkerGoesOn(p: Pool, s: PoolState, w: nat) returns (a: Action)
    requires Inv(p, s) && w < |s.workers| && Holding(s.workers[w]).Some?
    ensures Enabled(p, s, a) && Unasked(s, a) && ByWorker(a, w)
  {
    hide First, WakeOk, QueueOk, CallOk;
    var x := s.workers[w];
    assert WorkerOk(p, s, x);
    HoldsHeld(p, s, w);
    ActiveCountSet(s.workers, w, x);
    var q := Holding(x).value;
    var call := s.calls[q.call];
    assert CallOk(p, call);
    HeldRemains(p, call, q.chunk);
    match x {
      case Popped(_) => a := Activate(w);
      case Working(_, next, failed, nested) =>
        if nested != [] {
          assert Top(x) in nested;
          a := if Top(x).next < Top(x).count then RunNested(w, false) else EndNested(w, true);
        } else if next < Begins(p, call.count, q.chunk + 1) {
          a := RunIndex(w, false);
        } else {
          a := EndChunk(w);
        }
      case Ran(_) => a := Record(w, true);
      case Recorded(_, _) => a := Deactivate(w);
      case Counted(_, _) => a := Complete(w);
    }
  }

  lemma HeldRemains(p: Pool, call: Call, k: nat)
    requires CallOk(p, call) && k < |call.chunks| && call.chunks[k].Held?
    ensures call.remaining > 0
  {
    hide RunsOk;
    NoneUnfinished(call.chunks);
  }

  /** Queued work is taken sooner or later: some thread can step towards it. */
  lemma QueueGoesOn(p: Pool, s: PoolState) returns (a: Action)
    requires Inv(p, s) && s.queue != []
    ensures Enabled(p, s, a) && Unasked(s, a)
  {
    hide First, WorkerOk, RanOnce, RunsOk;
    QueuedHasThreads(p, s);
    var x := s.workers[0];
    if Holding(x).Some? {
      a := WorkerGoesOn(p, s, 0);
    } else if x.Awake? {
      var waiter: nat := 0;
      if c: nat :| Waits(s, c) { waiter := c; }
      a := Take(0, waiter);
    } else {
      var c :| Announces(s, c);
      a := Announce(c);
    }
  }

  lemma QueuedHasThreads(p: Pool, s: PoolState)
    requires Inv(p, s) && s.queue != []
    ensures p.threads > 0
  {
    hide First, WorkerOk, RunsOk, WakeOk;
    var t := s.queue[0];
    assert t in s.queue && IsChunk(s, t, Queued);
    assert CallOk(p, s.calls[t.call]);
  }

  /** As long as a call is not over, some thread can step unasked: no wake-up is lost and nothing deadlocks. */
  lemma NoDeadlock(p: Pool, s: PoolState, c: nat) returns (a: Action)
    requires Inv(p, s) && c < |s.calls| && !Over(s.calls[c])
    ensures Enabled(p, s, a) && Unasked(s, a)
  {
    hide First, WorkerOk, RanOnce;
    var call := s.calls[c];
    assert CallOk(p, call);
    NoneUnfinished(call.chunks);
    match call.point {
      case Entering => a := Submit(c, true);
      case WaitingForSpace(notified) =>
        if notified {
          a := Retry(c);
        } else {
          assert Waits(s, c);
          if s.queue != [] {
            a := QueueGoesOn(p, s);
          } else {
            var d :| IsNotified(s, d);
            a := Retry(d);
          }
        }
      case Announcing => a := Announce(c);
      case Closing => a := Shut(c, true);
      case Awaiting =>
        if call.remaining == 0 {
          a := Observe(c);
        } else {
          var k :| 0 <= k < |call.chunks| && !call.chunks[k].Finished?;
          if call.chunks[k].Held? {
            assert IsChunk(s, Task(c, k), Held);
            var w :| Holder(s, w, Task(c, k));
            a := WorkerGoesOn(p, s, w);
          } else {
            assert IsChunk(s, Task(c, k), Queued);
            assert Task(c, k) in s.queue;
            a := QueueGoesOn(p, s);
          }
        }
    }
  }

  /** Every chunk of every call is finished, or was never queued. */
  ghost predicate NoneInFlight(s: PoolState) {
    forall c, k | 0 <= c < |s.calls| && 0 <= k < |s.calls[c].chunks| :: s.calls[c].chunks[k].Finished? || s.calls[c].chunks[k].Unqueued?
  }

  ghost predicate NothingHeld(s: PoolState) { forall w | 0 <= w < |s.workers| :: Holding(s.workers[w]).None? }

  /** The queue is empty and no worker has a task exactly when no chunk is in flight. */
  lemma IdleExactly(p: Pool, s: PoolState)
    requires Inv(p, s)
    ensures s.queue == [] && NothingHeld(s) <==> NoneInFlight(s)
  {
    hide First, WorkerOk, WakeOk, CallOk;
    assert s.queue != [] ==> s.queue[0] in s.queue;
    if NoneInFlight(s) {
      forall t ensures !IsChunk(s, t, Queued) && !IsChunk(s, t, Held) { }
      forall w | 0 <= w < |s.workers| ensures Holding(s.workers[w]).None? {
        forall t ensures !Holder(s, w, t) { assert !IsChunk(s, t, Held); }
        assert Holding(s.workers[w]).Some? ==> Holder(s, w, Holding(s.workers[w]).value);
      }
    }
    if s.queue == [] && NothingHeld(s) {
      assert forall w, t :: !Holder(s, w, t);
      forall c, k | 0 <= c < |s.calls| && 0 <= k < |s.calls[c].chunks| ensures s.calls[c].chunks[k].Finished? || s.calls[c].chunks[k].Unqueued? {
        assert IsChunk(s, Task(c, k), s.calls[c].chunks[k]);
        assert !IsChunk(s, Task(c, k), Queued) && !IsChunk(s, Task(c, k), Held);
      }
    }
  }

  /** What the idle test of the pool sees. */
  predicate IdleTest(s: PoolState) { s.queue == [] && s.active == 0 }

  lemma {:induction false} NoneCounted(workers: seq<Worker>)
    ensures ActiveCount(workers) == 0 <==> forall w | 0 <= w < |workers| :: !IsActive(workers[w])
  {
    if workers != [] {
      var n := |workers| - 1;
      NoneCounted(workers[..n]);
      assert forall w | 0 <= w < n :: workers[..n][w] == workers[w];
    }
  }

  /** When the idle test passes, nothing is in flight if and only if no call has an unfinished chunk; and what is in
      flight nevertheless is a task just popped, or one counted off but not yet reported to its caller. */
  lemma IdleTestExactly(p: Pool, s: PoolState)
    requires Inv(p, s) && IdleTest(s)
    ensures NothingHeld(s) <==> NoneInFlight(s)
    ensures NothingHeld(s) <==> forall w | 0 <= w < |s.workers| :: !s.workers[w].Popped? && !s.workers[w].Counted?
  {
    hide First, WorkerOk, WakeOk, CallOk, QueueOk, HoldersOk;
    IdleExactly(p, s);
    NoneCounted(s.workers);
  }

  /** A caller that is the only one to submit may rely on the test once its calls are over, and even without it: nothing
      is queued, held or active, so their receipts can be consumed. */
  lemma OverIsIdle(p: Pool, s: PoolState)
    requires Inv(p, s) && forall c | 0 <= c < |s.calls| :: Over(s.calls[c])
    ensures IdleTest(s) && NothingHeld(s)
  {
    hide First, WorkerOk, WakeOk, QueueOk, HoldersOk, RunsOk;
    forall c, k | 0 <= c < |s.calls| && 0 <= k < |s.calls[c].chunks| ensures s.calls[c].chunks[k].Finished? || s.calls[c].chunks[k].Unqueued? {
      assert CallOk(p, s.calls[c]);
    }
    IdleExactly(p, s);
    NoneActive(s.workers);
  }

  /** The test can pass too early: a task already popped is neither queued nor active. */
  lemma IdleTestIsEarly()
    ensures var p := Pool(1, 1); var run := [Submit(0, true), Announce(0), Take(0, 0)];
      Possible(p, Start(p, [1]), run)
      && var s := After(p, Start(p, [1]), run);
      s.queue == [] && s.active == 0 && Holding(s.workers[0]).Some? && s.calls[0].runs[0] == 0
  {
  }
}
