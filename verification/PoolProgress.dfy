/** Progress: a measure that falls with every step a thread takes unasked, so no pool keeps busy for ever and every call
    is over after finitely many steps. */
module PoolProgress {
  import opened Partition
  import opened WorkPool
  import opened PoolGuarantees

  // ---- the measure -------------------------------------------------------------------------------------------

  function CountsOf(s: PoolState): (counts: seq<nat>)
    ensures |counts| == |s.calls| && forall c | 0 <= c < |counts| :: counts[c] == s.calls[c].count
  {
    seq(|s.calls|, c requires 0 <= c < |s.calls| => s.calls[c].count)
  }

  /** Indices of a chunk from `next` on. */
  function Room(p: Pool, counts: seq<nat>, t: Task, next: nat): nat {
    if t.call < |counts| && Chunks(p, counts[t.call]) > 0 && next <= Begins(p, counts[t.call], t.chunk + 1) then
      Begins(p, counts[t.call], t.chunk + 1) - next
    else 0
  }

  function WholeRoom(p: Pool, counts: seq<nat>, t: Task): nat {
    if t.call < |counts| && Chunks(p, counts[t.call]) > 0 then Room(p, counts, t, Begins(p, counts[t.call], t.chunk)) else 0
  }

  function FramesWeight(nested: seq<Frame>): nat {
    if nested == [] then 0
    else
      var f := nested[|nested| - 1];
      FramesWeight(nested[..|nested| - 1]) + 1 + if f.next <= f.count then f.count - f.next else 0
  }

  function WorkerWeight(p: Pool, counts: seq<nat>, w: Worker): nat {
    match w
    case Asleep => 0
    case Exited => 0
    case Awake => 1
    case Popped(t) => 6 + WholeRoom(p, counts, t)
    case Working(t, next, _, nested) => 5 + Room(p, counts, t, next) + FramesWeight(nested)
    case Ran(_) => 4
    case Recorded(_, _) => 3
    case Counted(_, _) => 2
  }

  function WorkersWeight(p: Pool, counts: seq<nat>, workers: seq<Worker>): nat {
    if workers == [] then 0
    else WorkersWeight(p, counts, workers[..|workers| - 1]) + WorkerWeight(p, counts, workers[|workers| - 1])
  }

  function QueueWeight(p: Pool, counts: seq<nat>, queue: seq<Task>): nat {
    if queue == [] then 0 else 8 + WholeRoom(p, counts, queue[0]) + QueueWeight(p, counts, queue[1..])
  }

  function BatchWeight(p: Pool, counts: seq<nat>, c: nat): nat
    requires c < |counts|
  {
    QueueWeight(p, counts, AllTasks(c, Chunks(p, counts[c])))
  }

  function PointWeight(p: Pool, counts: seq<nat>, c: nat, point: Point): nat
    requires c < |counts|
  {
    match point
    case Entering => 6 + p.threads + BatchWeight(p, counts, c)
    case WaitingForSpace(notified) => (if notified then 5 else 4) + p.threads + BatchWeight(p, counts, c)
    case Announcing => 3 + p.threads
    case Awaiting => 2
    case Closing => 1
    case Returned => 0
    case Thrown => 0
  }

  function CallsWeight(p: Pool, counts: seq<nat>, calls: seq<Call>): nat
    requires |calls| <= |counts|
  {
    if calls == [] then 0
    else CallsWeight(p, counts, calls[..|calls| - 1]) + PointWeight(p, counts, |calls| - 1, calls[|calls| - 1].point)
  }

  function Weight(p: Pool, s: PoolState): nat {
    var counts := CountsOf(s);
    CallsWeight(p, counts, s.calls) + WorkersWeight(p, counts, s.workers) + QueueWeight(p, counts, s.queue)
  }

  // ---- single changes ----------------------------------------------------------------------------------------

  lemma {:induction false} WorkersSet(p: Pool, counts: seq<nat>, workers: seq<Worker>, w: nat, x: Worker)
    requires w < |workers|
    ensures WorkersWeight(p, counts, workers[w := x]) + WorkerWeight(p, counts, workers[w])
      == WorkersWeight(p, counts, workers) + WorkerWeight(p, counts, x)
  {
    var n := |workers| - 1;
    if w < n {
      WorkersSet(p, counts, workers[..n], w, x);
      assert workers[w := x][..n] == workers[..n][w := x];
    } else {
      assert workers[w := x][..n] == workers[..n];
    }
  }

  lemma {:induction false} CallsSet(p: Pool, counts: seq<nat>, calls: seq<Call>, c: nat, x: Call)
    requires c < |calls| <= |counts|
    ensures CallsWeight(p, counts, calls[c := x]) + PointWeight(p, counts, c, calls[c].point)
      == CallsWeight(p, counts, calls) + PointWeight(p, counts, c, x.point)
  {
    var n := |calls| - 1;
    if c < n {
      CallsSet(p, counts, calls[..n], c, x);
      assert calls[c := x][..n] == calls[..n][c := x];
    } else {
      assert calls[c := x][..n] == calls[..n];
    }
  }

  lemma {:induction false} AwokenWeight(p: Pool, counts: seq<nat>, a: seq<Worker>, b: seq<Worker>)
    requires |a| == |b| && forall w | 0 <= w < |a| :: b[w] == Awoken(a[w])
    ensures WorkersWeight(p, counts, b) <= WorkersWeight(p, counts, a) + |a|
  {
    if a != [] { AwokenWeight(p, counts, a[..|a| - 1], b[..|b| - 1]); }
  }

  lemma {:induction false} QueueAppend(p: Pool, counts: seq<nat>, a: seq<Task>, b: seq<Task>)
    ensures QueueWeight(p, counts, a + b) == QueueWeight(p, counts, a) + QueueWeight(p, counts, b)
  {
    if a == [] {
      assert a + b == b;
    } else {
      assert (a + b)[1..] == a[1..] + b;
      QueueAppend(p, counts, a[1..], b);
    }
  }

  lemma FramesSet(nested: seq<Frame>, f: Frame)
    requires nested != []
    ensures var below := nested[..|nested| - 1];
      FramesWeight(below + [f]) == FramesWeight(below) + 1 + if f.next <= f.count then f.count - f.next else 0
  {
    var below := nested[..|nested| - 1];
    assert (below + [f])[..|below|] == below;
  }

  // ---- every unasked step makes it smaller ---------------------------------------------------------------------

  lemma CallerStep(p: Pool, s: PoolState, a: Action)
    requires Inv(p, s) && Enabled(p, s, a) && Unasked(s, a)
    requires a.Submit? || a.Retry? || a.Observe? || a.Shut?
    ensures Weight(p, Apply(p, s, a)) < Weight(p, s)
  {
    hide First, Room, QueueWeight, WorkersWeight, CallsWeight, AllTasks, Inv;
    var t, counts := Apply(p, s, a), CountsOf(s);
    var c := a.c;
    assert t.calls == s.calls[c := t.calls[c]] && t.calls[c].count == s.calls[c].count && t.workers == s.workers;
    CallsSet(p, counts, s.calls, c, t.calls[c]);
    if t.queue != s.queue {
      assert t.queue == s.queue + AllTasks(c, Chunks(p, counts[c]));
      QueueAppend(p, counts, s.queue, AllTasks(c, Chunks(p, counts[c])));
    }
    CallFalls(p, s, t, c);
  }

  lemma CallFalls(p: Pool, s: PoolState, t: PoolState, c: nat)
    requires c < |s.calls| && |t.calls| == |s.calls| && t.workers == s.workers
    requires forall d | 0 <= d < |s.calls| :: t.calls[d].count == s.calls[d].count
    requires CallsWeight(p, CountsOf(s), t.calls) + QueueWeight(p, CountsOf(s), t.queue)
      < CallsWeight(p, CountsOf(s), s.calls) + QueueWeight(p, CountsOf(s), s.queue)
    ensures Weight(p, t) < Weight(p, s)
  {
    hide CallsWeight, QueueWeight, WorkersWeight;
    assert CountsOf(t) == CountsOf(s);
  }

  lemma AnnounceStep(p: Pool, s: PoolState, c: nat)
    requires Inv(p, s) && Enabled(p, s, Announce(c))
    ensures Weight(p, Apply(p, s, Announce(c))) < Weight(p, s)
  {
    hide First, Room, QueueWeight, WorkersWeight, CallOk, WorkerOk, WakeOk, QueueOk;
    var t, counts := Apply(p, s, Announce(c)), CountsOf(s);
    assert CountsOf(t) == counts;
    CallsSet(p, counts, s.calls, c, s.calls[c].(point := Awaiting));
    AwokenWeight(p, counts, s.workers, t.workers);
  }

  /** A worker's step that leaves the points and the queue alone. */
  lemma WorkerStepFalls(p: Pool, s: PoolState, t: PoolState, w: nat)
    requires w < |s.workers| == |t.workers| && t.workers == s.workers[w := t.workers[w]] && t.queue == s.queue && |t.calls| == |s.calls|
    requires forall c | 0 <= c < |s.calls| :: t.calls[c].point == s.calls[c].point && t.calls[c].count == s.calls[c].count
    requires WorkerWeight(p, CountsOf(s), t.workers[w]) < WorkerWeight(p, CountsOf(s), s.workers[w])
    ensures Weight(p, t) < Weight(p, s)
  {
    hide First, Room, QueueWeight, WorkerWeight;
    assert CountsOf(t) == CountsOf(s);
    WorkersSet(p, CountsOf(s), s.workers, w, t.workers[w]);
    PointsOnly(p, CountsOf(s), s.calls, t.calls);
  }

  lemma {:induction false} PointsOnly(p: Pool, counts: seq<nat>, a: seq<Call>, b: seq<Call>)
    requires |a| == |b| <= |counts| && forall c | 0 <= c < |a| :: a[c].point == b[c].point
    ensures CallsWeight(p, counts, a) == CallsWeight(p, counts, b)
  {
    if a != [] { PointsOnly(p, counts, a[..|a| - 1], b[..|b| - 1]); }
  }

  lemma RunningStep(p: Pool, s: PoolState, a: Action)
    requires Enabled(p, s, a) && Unasked(s, a)
    requires a.Activate? || a.RunIndex? || a.RunNested? || a.EndNested? || a.EndChunk? || a.Record? || a.Deactivate? || a.Complete?
    ensures Weight(p, Apply(p, s, a)) < Weight(p, s)
  {
    hide First, QueueWeight, WorkersWeight, CallsWeight, Weight;
    var t, w := Apply(p, s, a), a.w;
    if a.RunNested? {
      FramesSet(s.workers[w].nested, Frame(Top(s.workers[w]).count, Top(s.workers[w]).next + 1, t.workers[w].nested[|s.workers[w].nested| - 1].failed));
    }
    WorkerStepFalls(p, s, t, w);
  }

  lemma TakeStep(p: Pool, s: PoolState, w: nat, waiter: nat)
    requires Inv(p, s) && Enabled(p, s, Take(w, waiter))
    ensures Weight(p, Apply(p, s, Take(w, waiter))) < Weight(p, s)
  {
    hide First, Room, WholeRoom, WorkersWeight, CallsWeight, CallOk, WorkerOk, WakeOk, HoldersOk, BatchWeight;
    var counts := CountsOf(s);
    if s.queue == [] {
      WorkerStepFalls(p, s, Apply(p, s, Take(w, waiter)), w);
    } else {
      var q := s.queue[0];
      var popped := Mark(SetWorker(s, w, Popped(q)).(queue := s.queue[1..]), q, Held);
      MarkKeeps(SetWorker(s, w, Popped(q)).(queue := s.queue[1..]), q, Held);
      WorkersSet(p, counts, s.workers, w, Popped(q));
      PointsOnly(p, counts, s.calls, popped.calls);
      assert CountsOf(popped) == counts;
      if Waits(s, waiter) {
        CallsSet(p, counts, popped.calls, waiter, Notified(popped.calls[waiter]));
        assert CountsOf(SetCall(popped, waiter, Notified(popped.calls[waiter]))) == counts;
      }
    }
  }

  lemma MarkKeeps(s: PoolState, t: Task, x: ChunkState)
    ensures var m := Mark(s, t, x); m.workers == s.workers && m.queue == s.queue
    ensures forall c | 0 <= c < |s.calls| :: Mark(s, t, x).calls[c].point == s.calls[c].point && Mark(s, t, x).calls[c].count == s.calls[c].count
  {
  }

  /** Every unasked step makes the measure smaller. */
  lemma StepFalls(p: Pool, s: PoolState, a: Action)
    requires Inv(p, s) && Enabled(p, s, a) && Unasked(s, a)
    ensures Weight(p, Apply(p, s, a)) < Weight(p, s)
  {
    hide Inv, Enabled, Apply, Weight;
    match a
    case Submit(_, _) => CallerStep(p, s, a);
    case Retry(_) => CallerStep(p, s, a);
    case Observe(_) => CallerStep(p, s, a);
    case Shut(_, _) => CallerStep(p, s, a);
    case Announce(c) => AnnounceStep(p, s, c);
    case Take(w, waiter) => TakeStep(p, s, w, waiter);
    case _ => RunningStep(p, s, a);
  }

  // ---- what follows --------------------------------------------------------------------------------------------

  /** All steps of a run are unasked. */
  ghost predicate AllUnasked(p: Pool, s: PoolState, run: seq<Action>)
    requires Possible(p, s, run)
    decreases |run|
  {
    run == [] || (Unasked(s, run[0]) && AllUnasked(p, Apply(p, s, run[0]), run[1..]))
  }

  /** No run of unasked steps is longer than the measure: nothing spins. */
  lemma {:induction false} RunsEnd(p: Pool, s: PoolState, run: seq<Action>)
    requires Inv(p, s) && Possible(p, s, run) && AllUnasked(p, s, run)
    ensures |run| + Weight(p, After(p, s, run)) <= Weight(p, s)
    decreases |run|
  {
    hide Inv, Enabled, Apply, Weight;
    if run != [] {
      StepKeeps(p, s, run[0]);
      StepFalls(p, s, run[0]);
      RunsEnd(p, Apply(p, s, run[0]), run[1..]);
    }
  }

  /** A run of unasked steps that cannot be continued has brought every call to its end. */
  lemma MaximalRunsFinish(p: Pool, s: PoolState, run: seq<Action>, c: nat)
    requires Inv(p, s) && Possible(p, s, run) && c < |After(p, s, run).calls|
    requires forall a :: !(Enabled(p, After(p, s, run), a) && Unasked(After(p, s, run), a))
    ensures Over(After(p, s, run).calls[c])
  {
    hide Inv, Enabled, Apply;
    AlwaysInv(p, s, run);
    if !Over(After(p, s, run).calls[c]) {
      var a := NoDeadlock(p, After(p, s, run), c);
    }
  }
}
