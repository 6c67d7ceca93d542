/** Every step of a caller or a worker keeps the invariant of the pool. */
module PoolSteps {
  import opened Options
  import opened Partition
  import opened WorkPool

  lemma {:induction false} ActiveCountSet(workers: seq<Worker>, w: nat, x: Worker)
    requires w < |workers|
    ensures ActiveCount(workers[w := x])
      == ActiveCount(workers) - (if IsActive(workers[w]) then 1 else 0) + (if IsActive(x) then 1 else 0)
    ensures IsActive(workers[w]) ==> ActiveCount(workers) > 0
  {
    var n := |workers| - 1;
    if w < n {
      ActiveCountSet(workers[..n], w, x);
      assert workers[w := x][..n] == workers[..n][w := x];
    } else {
      assert workers[w := x][..n] == workers[..n];
    }
  }

  lemma {:induction false} ActiveCountSame(a: seq<Worker>, b: seq<Worker>)
    requires |a| == |b| && forall w | 0 <= w < |a| :: IsActive(a[w]) == IsActive(b[w])
    ensures ActiveCount(a) == ActiveCount(b)
  {
    if a != [] { ActiveCountSame(a[..|a| - 1], b[..|b| - 1]); }
  }

  lemma {:induction false} UnfinishedSet(chunks: seq<ChunkState>, k: nat)
    requires k < |chunks| && !chunks[k].Finished?
    ensures Unfinished(chunks) > 0 && Unfinished(chunks[k := Finished]) == Unfinished(chunks) - 1
  {
    var n := |chunks| - 1;
    if k < n {
      UnfinishedSet(chunks[..n], k);
      assert chunks[k := Finished][..n] == chunks[..n][k := Finished];
    } else {
      assert chunks[k := Finished][..n] == chunks[..n];
    }
  }

  lemma {:induction false} UnfinishedSame(a: seq<ChunkState>, b: seq<ChunkState>)
    requires |a| == |b| && forall k | 0 <= k < |a| :: a[k].Finished? == b[k].Finished?
    ensures Unfinished(a) == Unfinished(b)
  {
    if a != [] { UnfinishedSame(a[..|a| - 1], b[..|b| - 1]); }
  }

  lemma {:induction false} NoneUnfinished(chunks: seq<ChunkState>)
    ensures Unfinished(chunks) == 0 <==> forall k | 0 <= k < |chunks| :: chunks[k].Finished?
    ensures (forall k | 0 <= k < |chunks| :: !chunks[k].Finished?) ==> Unfinished(chunks) == |chunks|
  {
    if chunks != [] {
      var n := |chunks| - 1;
      NoneUnfinished(chunks[..n]);
      assert forall k | 0 <= k < n :: chunks[..n][k] == chunks[k];
    }
  }

  /** Calls that differ in nothing the chunks or their runs show. */
  ghost predicate SameWork(a: Call, b: Call) {
    a.count == b.count && a.runs == b.runs && a.chunks == b.chunks && a.receipts == b.receipts
  }

  ghost predicate SameWorks(s: PoolState, s': PoolState) {
    |s.calls| == |s'.calls| && forall c | 0 <= c < |s.calls| :: SameWork(s.calls[c], s'.calls[c])
  }

  /** Queue, holders and workers look only at the work of the calls. */
  lemma WorkersStay(p: Pool, s: PoolState, s': PoolState)
    requires SameWorks(s, s') && s'.workers == s.workers && s'.queue == s.queue
    requires QueueOk(p, s) && HoldersOk(p, s) && forall w | 0 <= w < |s.workers| :: WorkerOk(p, s, s.workers[w])
    ensures QueueOk(p, s') && HoldersOk(p, s') && forall w | 0 <= w < |s'.workers| :: WorkerOk(p, s', s'.workers[w])
  {
    hide RanOnce, First;
    assert forall t, x :: IsChunk(s', t, x) <==> IsChunk(s, t, x);
    assert forall w, t :: Holder(s', w, t) <==> Holder(s, w, t);
    forall w | 0 <= w < |s'.workers| ensures WorkerOk(p, s', s'.workers[w]) { WorkerStays(p, s, s', s.workers[w]); }
  }

  lemma WorkerStays(p: Pool, s: PoolState, s': PoolState, w: Worker)
    requires SameWorks(s, s') && WorkerOk(p, s, w)
    ensures WorkerOk(p, s', w)
  {
    if Holding(w).Some? { assert SameWork(s.calls[Holding(w).value.call], s'.calls[Holding(w).value.call]); }
  }

  /** A step of a caller that touches no chunk. */
  lemma PointStep(p: Pool, s: PoolState, c: nat, x: Call, receiptError: bool)
    requires Inv(p, s) && c < |s.calls| && SameWork(s.calls[c], x) && CallOk(p, x)
    requires WakeOk(SetCall(s, c, x).(receiptError := receiptError))
    ensures Inv(p, SetCall(s, c, x).(receiptError := receiptError))
  {
    hide QueueOk, HoldersOk, WorkerOk, CallOk, WakeOk;
    WorkersStay(p, s, SetCall(s, c, x).(receiptError := receiptError));
  }

  /** Returning at once, being turned away, waiting for space, announcing, observing, closing. */
  lemma CallerKeeps(p: Pool, s: PoolState, a: Action)
    requires Inv(p, s) && Enabled(p, s, a) && (a.Submit? || a.Retry? || a.Observe? || a.Shut?)
    requires a.Submit? && !s.receiptError && s.calls[a.c].count > 0 && 0 < Chunks(p, s.calls[a.c].count) <= p.bound ==>
      s.stopping || |s.queue| + Chunks(p, s.calls[a.c].count) > p.bound
    requires a.Retry? ==> s.stopping || |s.queue| + Chunks(p, s.calls[a.c].count) > p.bound
    ensures Inv(p, Apply(p, s, a))
  {
    hide QueueOk, HoldersOk, WorkerOk, First, CallOk;
    var c, t := a.c, Apply(p, s, a);
    CallerCallOk(p, s, a);
    assert |s.queue| <= p.bound by { QueueBound(p, s); }
    assert t == SetCall(s, c, t.calls[c]).(receiptError := t.receiptError);
    assert forall d | 0 <= d < |s.calls| && d != c :: t.calls[d] == s.calls[d];
    CallerWakes(p, s, c, t.calls[c], t.receiptError);
    PointStep(p, s, c, t.calls[c], t.receiptError);
  }

  lemma CallerCallOk(p: Pool, s: PoolState, a: Action)
    requires (a.Submit? || a.Retry? || a.Observe? || a.Shut?) && Enabled(p, s, a) && CallOk(p, s.calls[a.c])
    requires a.Submit? && !s.receiptError && s.calls[a.c].count > 0 && 0 < Chunks(p, s.calls[a.c].count) <= p.bound ==>
      s.stopping || |s.queue| + Chunks(p, s.calls[a.c].count) > p.bound
    requires a.Retry? ==> s.stopping || |s.queue| + Chunks(p, s.calls[a.c].count) > p.bound
    ensures var t := Apply(p, s, a);
      |t.calls| == |s.calls| && SameWork(s.calls[a.c], t.calls[a.c]) && CallOk(p, t.calls[a.c])
      && (t.calls[a.c].point.WaitingForSpace? ==> Chunks(p, t.calls[a.c].count) <= p.bound)
  {
    hide RunsOk;
    var call, x := s.calls[a.c], Apply(p, s, a).calls[a.c];
    NoneUnfinished(call.chunks);
    assert call.point.Closing? && !Untouched(call) ==> forall k | 0 <= k < |call.chunks| :: call.chunks[k].Finished?;
    assert SameWork(call, x) && (call.error ==> x.error);
    SameRuns(p, call, x);
    assert Untouched(x) == Untouched(call);
    assert RunsOk(p, x);
  }

  lemma SameRuns(p: Pool, a: Call, b: Call)
    requires SameWork(a, b) && |a.runs| == a.count && |a.chunks| == |a.receipts| == Chunks(p, a.count)
    requires RunsOk(p, a) && (a.error ==> b.error)
    ensures RunsOk(p, b)
  {
    assert forall k, upto | 0 <= k < |a.chunks| :: RanOnce(p, a, k, upto) <==> RanOnce(p, b, k, upto);
  }

  lemma QueueBound(p: Pool, s: PoolState)
    requires QueueOk(p, s)
    ensures |s.queue| <= p.bound
  {
  }

  lemma CallerWakes(p: Pool, s: PoolState, c: nat, x: Call, receiptError: bool)
    requires WakeOk(s) && c < |s.calls|
    requires !s.calls[c].point.Announcing? || (forall w | 0 <= w < |s.workers| :: !s.workers[w].Asleep?)
    requires x.point == WaitingForSpace(false) ==> s.queue != [] && !s.stopping
    requires s.calls[c].point == WaitingForSpace(true) ==>
      x.point == WaitingForSpace(false) || s.stopping || s.queue != []
    ensures WakeOk(SetCall(s, c, x).(receiptError := receiptError))
  {
    var t := SetCall(s, c, x).(receiptError := receiptError);
    assert forall d | d != c :: Waits(t, d) <==> Waits(s, d);
    assert forall d | d != c :: IsNotified(t, d) <==> IsNotified(s, d);
    assert forall d | d != c :: Announces(t, d) <==> Announces(s, d);
  }

  /** All sleeping workers woken, a caller moved on to waiting for its chunks. */
  lemma AnnounceKeeps(p: Pool, s: PoolState, c: nat)
    requires Inv(p, s) && Enabled(p, s, Announce(c))
    ensures Inv(p, Apply(p, s, Announce(c)))
  {
    hide QueueOk, HoldersOk, WorkerOk, First, RunsOk, WakeOk;
    var x := s.calls[c].(point := Awaiting);
    var t := SetCall(s, c, x).(receiptError := s.receiptError);
    assert SameWork(s.calls[c], x);
    assert CallOk(p, s.calls[c]);
    SameRuns(p, s.calls[c], x);
    assert Untouched(x) == Untouched(s.calls[c]);
    assert CallOk(p, x);
    WorkersStay(p, s, t);
    assert forall d | 0 <= d < |t.calls| :: CallOk(p, t.calls[d]);
    AwokenKeeps(p, s, t);
    AwokenWakes(s, c, x);
  }

  lemma AwokenKeeps(p: Pool, s: PoolState, t: PoolState)
    requires t.workers == s.workers && QueueOk(p, t) && HoldersOk(p, t) && forall w | 0 <= w < |t.workers| :: WorkerOk(p, t, t.workers[w])
    requires t.active == ActiveCount(t.workers)
    ensures QueueOk(p, AllAwoken(t)) && HoldersOk(p, AllAwoken(t))
    ensures forall w | 0 <= w < |t.workers| :: WorkerOk(p, AllAwoken(t), AllAwoken(t).workers[w])
    ensures t.active == ActiveCount(AllAwoken(t).workers)
  {
    hide RanOnce, First;
    var u := AllAwoken(t);
    assert forall q, x :: IsChunk(u, q, x) <==> IsChunk(t, q, x);
    forall w, q ensures Holder(u, w, q) <==> Holder(t, w, q) { }
    ActiveCountSame(t.workers, u.workers);
    forall w | 0 <= w < |t.workers| ensures WorkerOk(p, u, u.workers[w]) {
      if !t.workers[w].Asleep? { WorkerElsewhere(p, t, u, t.workers[w]); }
    }
  }

  lemma WorkerElsewhere(p: Pool, s: PoolState, t: PoolState, w: Worker)
    requires WorkerOk(p, s, w) && t.calls == s.calls
    ensures WorkerOk(p, t, w)
  {
  }

  lemma AwokenWakes(s: PoolState, c: nat, x: Call)
    requires WakeOk(s) && c < |s.calls| && !s.calls[c].point.WaitingForSpace? && !x.point.WaitingForSpace?
    ensures WakeOk(AllAwoken(SetCall(s, c, x)))
  {
    var t := AllAwoken(SetCall(s, c, x));
    assert forall d :: Waits(t, d) <==> Waits(s, d);
    assert forall d :: IsNotified(t, d) <==> IsNotified(s, d);
    assert forall w | 0 <= w < |t.workers| :: !t.workers[w].Asleep? && (t.workers[w].Exited? <==> s.workers[w].Exited?);
  }

  /** All chunks of a call enqueued at once. */
  lemma EnqueueKeeps(p: Pool, s: PoolState, c: nat)
    requires Inv(p, s) && c < |s.calls| && (s.calls[c].point.Entering? || s.calls[c].point.WaitingForSpace?)
    requires !s.stopping && 0 < Chunks(p, s.calls[c].count) && |s.queue| + Chunks(p, s.calls[c].count) <= p.bound
    ensures Inv(p, Enqueue(p, s, c))
  {
    hide HoldersOk, WorkerOk, First, RunsOk, WakeOk, QueueOk;
    var call, t := s.calls[c], Enqueue(p, s, c);
    var x := t.calls[c];
    assert CallOk(p, call);
    assert CallOk(p, x) by { EnqueuedCall(p, call, x); }
    assert forall d | 0 <= d < |t.calls| && d != c :: t.calls[d] == s.calls[d];
    EnqueuedQueue(p, s, c);
    EnqueuedWorkers(p, s, c);
    EnqueuedWakes(p, s, c);
  }

  lemma EnqueuedCall(p: Pool, call: Call, x: Call)
    requires CallOk(p, call) && Untouched(call) && 0 < Chunks(p, call.count)
    requires x == call.(point := Announcing, remaining := |call.chunks|, chunks := seq(|call.chunks|, k => Queued))
    ensures CallOk(p, x)
  {
    NoneUnfinished(x.chunks);
    assert x.chunks[0].Queued?;
    forall k | 0 <= k < |x.chunks| ensures RanOnce(p, x, k, Begins(p, x.count, k)) {
      assert RanOnce(p, call, k, Begins(p, call.count, k));
    }
  }

  lemma EnqueuedQueue(p: Pool, s: PoolState, c: nat)
    requires QueueOk(p, s) && c < |s.calls| && Untouched(s.calls[c]) && !s.stopping
    requires |s.calls[c].chunks| == Chunks(p, s.calls[c].count) && |s.queue| + Chunks(p, s.calls[c].count) <= p.bound
    ensures QueueOk(p, Enqueue(p, s, c))
  {
    var n, t := Chunks(p, s.calls[c].count), Enqueue(p, s, c);
    var more := AllTasks(c, n);
    assert forall q | q in s.queue :: IsChunk(s, q, Queued) && q.call != c;
    assert forall q :: q in more <==> q.call == c && q.chunk < n by {
      forall q ensures q in more <==> q.call == c && q.chunk < n { if q.call == c && q.chunk < n { assert more[q.chunk] == q; } }
    }
    forall i, j | 0 <= i < j < |t.queue| ensures t.queue[i] != t.queue[j] {
      if i < |s.queue| { assert s.queue[i] in s.queue; }
    }
    forall q ensures q in t.queue <==> IsChunk(t, q, Queued) {
      if q.call != c { assert IsChunk(t, q, Queued) <==> IsChunk(s, q, Queued); }
    }
  }

  lemma EnqueuedWorkers(p: Pool, s: PoolState, c: nat)
    requires HoldersOk(p, s) && c < |s.calls| && Untouched(s.calls[c]) && !s.stopping
    requires |s.calls[c].chunks| == Chunks(p, s.calls[c].count) && |s.queue| + Chunks(p, s.calls[c].count) <= p.bound
    requires forall w | 0 <= w < |s.workers| :: WorkerOk(p, s, s.workers[w])
    ensures var t := Enqueue(p, s, c); HoldersOk(p, t) && forall w | 0 <= w < |t.workers| :: WorkerOk(p, t, t.workers[w])
  {
    hide RanOnce, First;
    var t := Enqueue(p, s, c);
    assert forall q :: IsChunk(t, q, Held) <==> IsChunk(s, q, Held);
    assert forall w, q :: Holder(t, w, q) <==> Holder(s, w, q);
    forall w | 0 <= w < |t.workers| ensures WorkerOk(p, t, t.workers[w]) {
      if Holding(s.workers[w]).Some? {
        assert Holder(s, w, Holding(s.workers[w]).value) && IsChunk(s, Holding(s.workers[w]).value, Held);
      }
    }
  }

  lemma EnqueuedWakes(p: Pool, s: PoolState, c: nat)
    requires WakeOk(s) && c < |s.calls| && !s.stopping
    requires 0 < Chunks(p, s.calls[c].count) && |s.queue| + Chunks(p, s.calls[c].count) <= p.bound
    ensures WakeOk(Enqueue(p, s, c))
  {
    var t := Enqueue(p, s, c);
    assert t.queue != [] && Announces(t, c);
    assert forall d :: Waits(t, d) ==> Waits(s, d);
  }

  // ---- steps of workers --------------------------------------------------------------------------------------

  /** A worker moves on with the same task, or without any. */
  lemma WorkerStep(p: Pool, s: PoolState, w: nat, x: Worker, active: nat, receiptError: bool)
    requires Inv(p, s) && w < |s.workers| && Holding(x) == Holding(s.workers[w]) && WorkerOk(p, s, x)
    requires !x.Asleep? && (x.Exited? ==> s.workers[w].Exited?)
    requires active == s.active - (if IsActive(s.workers[w]) then 1 else 0) + (if IsActive(x) then 1 else 0)
    ensures Inv(p, SetWorker(s, w, x).(active := active, receiptError := receiptError))
  {
    hide CallOk, RanOnce, First;
    var t := SetWorker(s, w, x).(active := active, receiptError := receiptError);
    ActiveCountSet(s.workers, w, x);
    assert forall q, y :: IsChunk(t, q, y) <==> IsChunk(s, q, y);
    assert forall v, q :: Holder(t, v, q) <==> Holder(s, v, q);
    assert forall d :: (Waits(t, d) <==> Waits(s, d)) && (IsNotified(t, d) <==> IsNotified(s, d)) && (Announces(t, d) <==> Announces(s, d));
    forall v | 0 <= v < |t.workers| ensures WorkerOk(p, t, t.workers[v]) { WorkerElsewhere(p, s, t, t.workers[v]); }
    forall d | 0 <= d < |t.calls| ensures CallOk(p, t.calls[d]) { assert CallOk(p, s.calls[d]); }
    assert forall v | 0 <= v < |t.workers| :: (t.workers[v].Asleep? ==> s.workers[v].Asleep?) && (t.workers[v].Exited? ==> s.workers[v].Exited?);
  }

  /** Waking up, starting, nesting and deactivating keep task and work. */
  lemma QuietWorkerKeeps(p: Pool, s: PoolState, a: Action)
    requires Inv(p, s) && Enabled(p, s, a)
    requires a.Wake? || a.Activate? || a.Nest? || a.RunNested? || a.EndNested? || a.Deactivate?
    ensures Inv(p, Apply(p, s, a))
  {
    hide CallOk, First, QueueOk, HoldersOk, WakeOk, RanOnce;
    var w, t := a.w, Apply(p, s, a);
    assert WorkerOk(p, s, s.workers[w]);
    assert t == SetWorker(s, w, t.workers[w]).(active := t.active, receiptError := t.receiptError);
    WorkerStep(p, s, w, t.workers[w], t.active, t.receiptError);
  }

  /** Falling asleep, or leaving a pool that stops. */
  lemma RestKeeps(p: Pool, s: PoolState, w: nat, waiter: nat)
    requires Inv(p, s) && Enabled(p, s, Take(w, waiter)) && s.queue == []
    ensures Inv(p, Apply(p, s, Take(w, waiter)))
  {
    hide CallOk, RanOnce, First;
    var x := if s.stopping then Exited else Asleep;
    var t := SetWorker(s, w, x);
    ActiveCountSet(s.workers, w, x);
    assert forall q, y :: IsChunk(t, q, y) <==> IsChunk(s, q, y);
    assert forall v, q :: Holder(t, v, q) <==> Holder(s, v, q);
    assert forall d :: (Waits(t, d) <==> Waits(s, d)) && (IsNotified(t, d) <==> IsNotified(s, d));
    forall v | 0 <= v < |t.workers| ensures WorkerOk(p, t, t.workers[v]) { WorkerElsewhere(p, s, t, t.workers[v]); }
    forall d | 0 <= d < |t.calls| ensures CallOk(p, t.calls[d]) { assert CallOk(p, s.calls[d]); }
  }

  /** A task popped: its chunk is held now, and one waiting caller is notified. */
  lemma PopKeeps(p: Pool, s: PoolState, w: nat, waiter: nat)
    requires Inv(p, s) && Enabled(p, s, Take(w, waiter)) && s.queue != []
    ensures Inv(p, Apply(p, s, Take(w, waiter)))
  {
    hide CallOk, RanOnce, First, QueueOk, HoldersOk, WorkerOk, WakeOk;
    var q := s.queue[0];
    assert IsChunk(s, q, Queued) by { FirstQueued(p, s); }
    var popped := Mark(SetWorker(s, w, Popped(q)).(queue := s.queue[1..]), q, Held);
    var t := Apply(p, s, Take(w, waiter));
    ActiveCountSet(s.workers, w, Popped(q));
    PoppedQueue(p, s, w);
    PoppedHolders(p, s, w);
    PoppedWorkers(p, s, w);
    PoppedCall(p, s.calls[q.call], q.chunk);
    PoppedWakes(p, s, w, waiter);
    forall d | 0 <= d < |popped.calls| ensures CallOk(p, popped.calls[d]) { assert CallOk(p, s.calls[d]); }
    assert t.workers == popped.workers && t.queue == popped.queue && t.active == popped.active;
    if Waits(s, waiter) {
      WaiterUntouched(p, s, waiter, q);
      assert popped.calls[waiter] == s.calls[waiter];
      NotifiedCall(p, s.calls[waiter]);
      assert SameWorks(popped, t) by { NotifiedWork(popped, waiter); }
      forall d | 0 <= d < |t.calls| ensures CallOk(p, t.calls[d]) { assert CallOk(p, popped.calls[d]); }
      WorkersStay(p, popped, t);
    }
  }

  lemma NotifiedWork(s: PoolState, c: nat)
    requires c < |s.calls|
    ensures SameWorks(s, SetCall(s, c, Notified(s.calls[c])))
  {
  }

  lemma FirstQueued(p: Pool, s: PoolState)
    requires QueueOk(p, s) && s.queue != []
    ensures IsChunk(s, s.queue[0], Queued)
  {
    assert s.queue[0] in s.queue;
  }

  lemma WaiterUntouched(p: Pool, s: PoolState, c: nat, q: Task)
    requires c < |s.calls| && CallOk(p, s.calls[c]) && Waits(s, c) && IsChunk(s, q, Queued)
    ensures q.call != c
  {
  }

  lemma NotifiedCall(p: Pool, call: Call)
    requires CallOk(p, call)
    ensures CallOk(p, Notified(call))
  {
    SameRuns(p, call, Notified(call));
    assert Untouched(Notified(call)) == Untouched(call);
  }

  lemma PoppedQueue(p: Pool, s: PoolState, w: nat)
    requires QueueOk(p, s) && s.queue != [] && w < |s.workers|
    ensures QueueOk(p, Mark(SetWorker(s, w, Popped(s.queue[0])).(queue := s.queue[1..]), s.queue[0], Held))
  {
    var q := s.queue[0];
    assert q in s.queue;
    var t := Mark(SetWorker(s, w, Popped(q)).(queue := s.queue[1..]), q, Held);
    forall r ensures r in t.queue <==> r != q && r in s.queue {
      assert r in s.queue <==> r == q || r in s.queue[1..];
      if r in t.queue { var i :| 0 <= i < |t.queue| && t.queue[i] == r; assert s.queue[0] != s.queue[i + 1]; }
    }
    assert forall r | r != q :: IsChunk(t, r, Queued) <==> IsChunk(s, r, Queued);
  }

  lemma PoppedHolders(p: Pool, s: PoolState, w: nat)
    requires HoldersOk(p, s) && s.queue != [] && w < |s.workers| && Holding(s.workers[w]).None? && IsChunk(s, s.queue[0], Queued)
    ensures HoldersOk(p, Mark(SetWorker(s, w, Popped(s.queue[0])).(queue := s.queue[1..]), s.queue[0], Held))
  {
    var q := s.queue[0];
    var t := Mark(SetWorker(s, w, Popped(q)).(queue := s.queue[1..]), q, Held);
    assert Holder(t, w, q);
    assert forall r | r != q :: IsChunk(t, r, Held) <==> IsChunk(s, r, Held);
    assert forall v, r | v != w :: Holder(t, v, r) <==> Holder(s, v, r);
    assert !IsChunk(s, q, Held);
    assert forall v :: !Holder(s, v, q);
    assert forall r :: Holder(t, w, r) <==> r == q;
    assert !exists r :: Holder(s, w, r);
  }

  lemma PoppedWorkers(p: Pool, s: PoolState, w: nat)
    requires s.queue != [] && w < |s.workers| && IsChunk(s, s.queue[0], Queued) && CallOk(p, s.calls[s.queue[0].call])
    requires forall v | 0 <= v < |s.workers| :: WorkerOk(p, s, s.workers[v])
    ensures var t := Mark(SetWorker(s, w, Popped(s.queue[0])).(queue := s.queue[1..]), s.queue[0], Held);
      forall v | 0 <= v < |t.workers| :: WorkerOk(p, t, t.workers[v])
  {
    hide First;
    var q := s.queue[0];
    var t := Mark(SetWorker(s, w, Popped(q)).(queue := s.queue[1..]), q, Held);
    forall v | 0 <= v < |t.workers| ensures WorkerOk(p, t, t.workers[v]) {
      if v != w { assert WorkerOk(p, s, s.workers[v]); }
    }
  }

  lemma PoppedCall(p: Pool, call: Call, k: nat)
    requires CallOk(p, call) && k < |call.chunks| && call.chunks[k].Queued?
    ensures CallOk(p, call.(chunks := call.chunks[k := Held]))
  {
    hide RanOnce, First;
    var x := call.(chunks := call.chunks[k := Held]);
    UnfinishedSame(call.chunks, x.chunks);
    assert !Untouched(call) && x.chunks[k].Held?;
    assert RunsOk(p, x) by {
      forall j, upto | 0 <= j < |x.chunks| ensures RanOnce(p, x, j, upto) <==> RanOnce(p, call, j, upto) { RanSame(p, x, call, j, upto); }
    }
  }

  lemma RanSame(p: Pool, a: Call, b: Call, k: nat, upto: nat)
    requires a.count == b.count && a.runs == b.runs && |a.runs| == a.count && k < Chunks(p, a.count)
    ensures RanOnce(p, a, k, upto) <==> RanOnce(p, b, k, upto)
  {
  }

  lemma PoppedWakes(p: Pool, s: PoolState, w: nat, waiter: nat)
    requires WakeOk(s) && Enabled(p, s, Take(w, waiter)) && s.queue != []
    ensures WakeOk(Apply(p, s, Take(w, waiter)))
  {
    var popped := Mark(SetWorker(s, w, Popped(s.queue[0])).(queue := s.queue[1..]), s.queue[0], Held);
    MarkPoints(SetWorker(s, w, Popped(s.queue[0])).(queue := s.queue[1..]), s.queue[0], Held);
    NotifyOne(s, popped, w, waiter);
  }

  lemma MarkPoints(s: PoolState, t: Task, x: ChunkState)
    ensures forall c | 0 <= c < |s.calls| :: Mark(s, t, x).calls[c].point == s.calls[c].point
  {
  }

  lemma NotifyOne(s: PoolState, popped: PoolState, w: nat, waiter: nat)
    requires WakeOk(s) && s.queue != [] && w < |s.workers| && s.workers[w].Awake? && ((exists c :: Waits(s, c)) ==> Waits(s, waiter))
    requires |popped.calls| == |s.calls| && forall c | 0 <= c < |s.calls| :: popped.calls[c].point == s.calls[c].point
    requires popped.workers == s.workers[w := Popped(s.queue[0])] && popped.stopping == s.stopping
    ensures WakeOk(if Waits(s, waiter) then SetCall(popped, waiter, Notified(popped.calls[waiter])) else popped)
  {
    var t := if Waits(s, waiter) then SetCall(popped, waiter, Notified(popped.calls[waiter])) else popped;
    assert forall d | d != waiter :: Waits(t, d) <==> Waits(s, d);
    assert forall d :: Announces(t, d) <==> Announces(s, d);
    assert Waits(s, waiter) ==> IsNotified(t, waiter);
    assert !s.stopping || !Waits(s, waiter);
    assert forall v | 0 <= v < |t.workers| :: (t.workers[v].Asleep? ==> s.workers[v].Asleep?) && (t.workers[v].Exited? ==> s.workers[v].Exited?);
  }

  /** What a worker's step may do to the call of its task: the other chunks look the same. */
  ghost predicate OthersSame(p: Pool, a: Call, b: Call, k: nat) {
    && a.count == b.count && a.point == b.point && |a.runs| == |b.runs| == a.count
    && |a.chunks| == |b.chunks| == |a.receipts| == |b.receipts| == Chunks(p, a.count)
    && (forall j | 0 <= j < |a.chunks| && j != k :: a.chunks[j] == b.chunks[j] && a.receipts[j] == b.receipts[j])
    && (forall j, upto | 0 <= j < |a.chunks| && j != k :: RanOnce(p, a, j, upto) <==> RanOnce(p, b, j, upto))
  }

  /** A worker that keeps its task changes its own chunk only. */
  lemma TaskStep(p: Pool, s: PoolState, w: nat, x: Worker, call: Call, receiptError: bool)
    requires Inv(p, s) && w < |s.workers| && Holding(s.workers[w]).Some? && Holding(x) == Holding(s.workers[w])
    requires IsActive(s.workers[w]) && IsActive(x)
    requires var q := Holding(x).value;
      (q.call < |s.calls| && OthersSame(p, s.calls[q.call], call, q.chunk) && call.chunks == s.calls[q.call].chunks
       && CallOk(p, call))
    requires WorkerOk(p, SetCall(SetWorker(s, w, x), Holding(x).value.call, call), x)
    ensures Inv(p, SetCall(SetWorker(s, w, x), Holding(x).value.call, call).(receiptError := receiptError))
  {
    hide CallOk, RanOnce, First;
    var q := Holding(x).value;
    var t := SetCall(SetWorker(s, w, x), q.call, call).(receiptError := receiptError);
    ActiveCountSet(s.workers, w, x);
    assert forall r, y :: IsChunk(t, r, y) <==> IsChunk(s, r, y);
    assert forall v, r :: Holder(t, v, r) <==> Holder(s, v, r);
    assert forall d :: (Waits(t, d) <==> Waits(s, d)) && (IsNotified(t, d) <==> IsNotified(s, d)) && (Announces(t, d) <==> Announces(s, d));
    assert forall v | 0 <= v < |t.workers| :: (t.workers[v].Asleep? ==> s.workers[v].Asleep?) && (t.workers[v].Exited? ==> s.workers[v].Exited?);
    forall d | 0 <= d < |t.calls| ensures CallOk(p, t.calls[d]) { if d != q.call { assert CallOk(p, s.calls[d]); } }
    forall v | 0 <= v < |t.workers| ensures WorkerOk(p, t, t.workers[v]) {
      if v == w {
        WorkerElsewhere(p, SetCall(SetWorker(s, w, x), q.call, call), t, x);
      } else {
        OtherWorker(p, s, w, v, t.calls, q);
        WorkerElsewhere(p, s.(calls := t.calls), t, s.workers[v]);
      }
    }
  }

  lemma OtherWorker(p: Pool, s: PoolState, w: nat, v: nat, calls: seq<Call>, q: Task)
    requires HoldersOk(p, s) && Holder(s, w, q) && v < |s.workers| && v != w && WorkerOk(p, s, s.workers[v])
    requires |calls| == |s.calls| && q.call < |calls| && OthersSame(p, s.calls[q.call], calls[q.call], q.chunk)
    requires forall d | 0 <= d < |calls| && d != q.call :: calls[d] == s.calls[d]
    ensures WorkerOk(p, s.(calls := calls), s.workers[v])
  {
    hide RanOnce, First;
    if Holding(s.workers[v]).Some? {
      var r := Holding(s.workers[v]).value;
      assert Holder(s, v, r);
      assert r != q;
    }
  }

  lemma HoldsHeld(p: Pool, s: PoolState, w: nat)
    requires HoldersOk(p, s) && w < |s.workers| && Holding(s.workers[w]).Some?
    ensures IsChunk(s, Holding(s.workers[w]).value, Held)
  {
    assert Holder(s, w, Holding(s.workers[w]).value);
  }

  /** Running an index raises its count, and no other chunk's. */
  lemma RunKeeps(p: Pool, s: PoolState, w: nat, throws: bool)
    requires Inv(p, s) && Enabled(p, s, RunIndex(w, throws))
    ensures Inv(p, Apply(p, s, RunIndex(w, throws)))
  {
    hide First, QueueOk, HoldersOk, WakeOk, WorkerOk, CallOk, RanOnce;
    var x, q := s.workers[w], s.workers[w].task;
    var call := s.calls[q.call];
    var y, call' := x.(next := x.next + 1, failed := x.failed || throws), call.(runs := call.runs[x.next := call.runs[x.next] + 1]);
    HoldsHeld(p, s, w);
    assert WorkerOk(p, s, x) && CallOk(p, call);
    RunCall(p, call, call', q.chunk, x.next) by { WorkerPosition(p, s, x); }
    RunWorker(p, s, w, y, call');
    TaskStep(p, s, w, y, call', s.receiptError);
  }

  lemma WorkerPosition(p: Pool, s: PoolState, x: Worker)
    requires WorkerOk(p, s, x) && x.Working?
    ensures HasCall(p, s, x.task) && RanOnce(p, s.calls[x.task.call], x.task.chunk, x.next)
  {
  }

  lemma RunCall(p: Pool, call: Call, call': Call, k: nat, i: nat)
    requires CallOk(p, call) && k < |call.chunks| && call.chunks[k].Held? && i < call.count && RanOnce(p, call, k, i)
    requires i < Begins(p, call.count, k + 1) && call' == call.(runs := call.runs[i := call.runs[i] + 1])
    ensures CallOk(p, call') && OthersSame(p, call, call', k) && RanOnce(p, call', k, i + 1)
  {
    hide First;
    forall j, upto | 0 <= j < |call.chunks| && j != k ensures RanOnce(p, call, j, upto) <==> RanOnce(p, call', j, upto) {
      OtherChunk(p, call, call', k, i, j, upto);
    }
    assert Untouched(call') == Untouched(call);
    RunRuns(p, call, call', k);
  }

  lemma RunRuns(p: Pool, call: Call, call': Call, k: nat)
    requires CallOk(p, call) && k < |call.chunks| && call.chunks[k].Held?
    requires call' == call.(runs := call'.runs) && OthersSame(p, call, call', k)
    ensures RunsOk(p, call')
  {
    hide RanOnce, First;
  }

  lemma OtherChunk(p: Pool, call: Call, call': Call, k: nat, i: nat, j: nat, upto: nat)
    requires |call.runs| == call.count == |call'.runs| && call'.count == call.count && i < call.count
    requires 0 < Chunks(p, call.count) && k < Chunks(p, call.count) && j < Chunks(p, call.count) && j != k
    requires Begins(p, call.count, k) <= i < Begins(p, call.count, k + 1)
    requires call'.runs == call.runs[i := call.runs[i] + 1]
    ensures RanOnce(p, call, j, upto) <==> RanOnce(p, call', j, upto)
  {
    hide First;
    var n := Chunks(p, call.count);
    FirstMonotone(call.count, n, j + 1, n);
    assert !(Begins(p, call.count, j) <= i < Begins(p, call.count, j + 1)) by {
      if Begins(p, call.count, j) <= i < Begins(p, call.count, j + 1) { InOneChunk(call.count, n, i, k, j); }
    }
    assert forall m | 0 <= m < call.count && m != i :: call'.runs[m] == call.runs[m];
  }

  lemma RunWorker(p: Pool, s: PoolState, w: nat, y: Worker, call': Call)
    requires w < |s.workers| && s.workers[w].Working? && WorkerOk(p, s, s.workers[w]) && y.Working?
    requires y == s.workers[w].(next := s.workers[w].next + 1, failed := y.failed)
    requires OthersSame(p, s.calls[y.task.call], call', y.task.chunk) && RanOnce(p, call', y.task.chunk, y.next)
    ensures WorkerOk(p, SetCall(SetWorker(s, w, y), y.task.call, call'), y)
  {
    hide RanOnce, First;
  }

  /** The end of a chunk's function, and its receipt. */
  lemma ChunkEndKeeps(p: Pool, s: PoolState, a: Action)
    requires Inv(p, s) && Enabled(p, s, a) && (a.EndChunk? || a.Record?)
    ensures Inv(p, Apply(p, s, a))
  {
    hide First, QueueOk, HoldersOk, WakeOk, CallOk, RanOnce;
    var x, t := s.workers[a.w], Apply(p, s, a);
    var q := x.task;
    var call, call' := s.calls[q.call], t.calls[q.call];
    HoldsHeld(p, s, a.w);
    assert WorkerOk(p, s, x) && CallOk(p, call);
    EndedCall(p, call, call', q.chunk);
    TaskStep(p, s, a.w, t.workers[a.w], call', t.receiptError);
  }

  lemma EndedCall(p: Pool, call: Call, call': Call, k: nat)
    requires CallOk(p, call) && k < |call.chunks| && call.chunks[k].Held? && (call.error ==> call'.error)
    requires |call.receipts| == |call'.receipts| == |call.chunks|
    requires call' == call.(error := call'.error, receipts := call.receipts[k := call'.receipts[k]])
      || call' == call.(error := call'.error)
    ensures CallOk(p, call') && OthersSame(p, call, call', k)
    ensures forall upto :: RanOnce(p, call, k, upto) <==> RanOnce(p, call', k, upto)
  {
    hide RanOnce, First;
    forall j, upto | 0 <= j < |call.chunks| ensures RanOnce(p, call, j, upto) <==> RanOnce(p, call', j, upto) {
      RanSame(p, call, call', j, upto);
    }
    assert Untouched(call') == Untouched(call);
  }

  /** The last step of a task: its chunk is finished and its worker free. */
  lemma CompleteKeeps(p: Pool, s: PoolState, w: nat)
    requires Inv(p, s) && Enabled(p, s, Complete(w))
    ensures Inv(p, Apply(p, s, Complete(w)))
  {
    hide First, QueueOk, HoldersOk, WakeOk, CallOk, RanOnce;
    var x, t := s.workers[w], Apply(p, s, Complete(w));
    var q := x.task;
    var call, call' := s.calls[q.call], t.calls[q.call];
    HoldsHeld(p, s, w);
    assert WorkerOk(p, s, x) && CallOk(p, call);
    CompletedCall(p, call, call', q.chunk, x.recorded);
    ActiveCountSet(s.workers, w, Awake);
    CompletedTables(p, s, w, t);
    CompletedWakes(s, w, t, q.call);
    forall d | 0 <= d < |t.calls| ensures CallOk(p, t.calls[d]) { if d != q.call { assert CallOk(p, s.calls[d]); } }
    forall v | 0 <= v < |t.workers| ensures WorkerOk(p, t, t.workers[v]) {
      if v != w {
        assert Holder(s, w, q);
        OtherWorker(p, s, w, v, t.calls, q);
        WorkerElsewhere(p, s.(calls := t.calls), t, s.workers[v]);
      }
    }
  }

  lemma CompletedCall(p: Pool, call: Call, call': Call, k: nat, recorded: bool)
    requires CallOk(p, call) && k < |call.chunks| && call.chunks[k].Held? && call.remaining > 0
    requires RanOnce(p, call, k, Begins(p, call.count, k + 1)) && (recorded ==> call.receipts[k])
    requires call' == call.(error := call.error || !recorded, remaining := call.remaining - 1, chunks := call.chunks[k := Finished])
    ensures CallOk(p, call') && OthersSame(p, call, call', k)
  {
    hide RanOnce, First;
    UnfinishedSet(call.chunks, k);
    forall j, upto | 0 <= j < |call.chunks| ensures RanOnce(p, call, j, upto) <==> RanOnce(p, call', j, upto) {
      RanSame(p, call, call', j, upto);
    }
    assert call'.chunks[k].Finished?;
  }

  lemma CompletedTables(p: Pool, s: PoolState, w: nat, t: PoolState)
    requires Inv(p, s) && Enabled(p, s, Complete(w)) && t == Apply(p, s, Complete(w))
    ensures QueueOk(p, t) && HoldersOk(p, t)
  {
    hide First, CallOk, WorkerOk, RanOnce, WakeOk;
    var q := s.workers[w].task;
    assert Holder(s, w, q);
    assert forall r, y | r != q :: IsChunk(t, r, y) <==> IsChunk(s, r, y);
    assert forall v, r | v != w :: Holder(t, v, r) <==> Holder(s, v, r);
    assert forall r :: !Holder(t, w, r);
    assert forall r :: Holder(s, w, r) <==> r == q;
    assert IsChunk(s, q, Held) && IsChunk(t, q, Finished);
    assert !IsChunk(s, q, Queued) && q !in s.queue;
    assert forall v :: !Holder(t, v, q);
  }

  lemma CompletedWakes(s: PoolState, w: nat, t: PoolState, c: nat)
    requires WakeOk(s) && w < |s.workers| && t.workers == s.workers[w := Awake] && t.queue == s.queue && t.stopping == s.stopping
    requires |t.calls| == |s.calls| && forall d | 0 <= d < |s.calls| :: t.calls[d].point == s.calls[d].point
    ensures WakeOk(t)
  {
    assert forall d :: (Waits(t, d) <==> Waits(s, d)) && (IsNotified(t, d) <==> IsNotified(s, d)) && (Announces(t, d) <==> Announces(s, d));
    assert forall v | 0 <= v < |t.workers| :: (t.workers[v].Asleep? ==> s.workers[v].Asleep?) && (t.workers[v].Exited? ==> s.workers[v].Exited?);
  }

  /** Stopping wakes everybody. */
  lemma StopKeeps(p: Pool, s: PoolState)
    requires Inv(p, s)
    ensures Inv(p, AllAwoken(s.(stopping := true, calls := AllNotified(s.calls))))
  {
    hide *;
    var calm := s.(stopping := true, calls := AllNotified(s.calls));
    InvParts(p, s);
    NotifiedAll(p, s);
    WorkersStay(p, s, calm);
    AwokenKeeps(p, s, calm);
    AwokenShape(calm);
    StopWakes(s, AllAwoken(calm));
    InvParts(p, AllAwoken(calm));
  }

  lemma InvParts(p: Pool, s: PoolState)
    ensures Inv(p, s) <==>
      ((forall c | 0 <= c < |s.calls| :: CallOk(p, s.calls[c])) && QueueOk(p, s) && HoldersOk(p, s)
       && (forall w | 0 <= w < |s.workers| :: WorkerOk(p, s, s.workers[w])) && s.active == ActiveCount(s.workers) && WakeOk(s))
  {
    hide CallOk, QueueOk, HoldersOk, WorkerOk, ActiveCount, WakeOk;
  }

  lemma NotifiedAll(p: Pool, s: PoolState)
    requires forall c | 0 <= c < |s.calls| :: CallOk(p, s.calls[c])
    ensures SameWorks(s, s.(stopping := true, calls := AllNotified(s.calls)))
    ensures forall c | 0 <= c < |s.calls| :: CallOk(p, AllNotified(s.calls)[c])
  {
    hide CallOk;
    forall c | 0 <= c < |s.calls| ensures CallOk(p, Notified(s.calls[c])) { NotifiedCall(p, s.calls[c]); }
  }

  lemma AwokenShape(s: PoolState)
    ensures var t := AllAwoken(s);
      t.calls == s.calls && t.queue == s.queue && t.active == s.active && t.stopping == s.stopping && |t.workers| == |s.workers|
      && forall w | 0 <= w < |s.workers| :: t.workers[w] == Awoken(s.workers[w])
  {
  }

  lemma Stopped(p: Pool, s: PoolState)
    ensures Apply(p, s, Stop) == AllAwoken(s.(stopping := true, calls := AllNotified(s.calls)))
  {
  }

  lemma StopWakes(s: PoolState, t: PoolState)
    requires WakeOk(s) && t.queue == s.queue && t.stopping && |t.workers| == |s.workers|
    requires forall w | 0 <= w < |s.workers| :: t.workers[w] == Awoken(s.workers[w])
    requires |t.calls| == |s.calls| && forall c | 0 <= c < |s.calls| :: t.calls[c] == Notified(s.calls[c])
    ensures WakeOk(t)
  {
    assert forall c :: !Waits(t, c);
    assert forall w | 0 <= w < |t.workers| :: !t.workers[w].Asleep? && (t.workers[w].Exited? ==> s.workers[w].Exited?);
  }
}
