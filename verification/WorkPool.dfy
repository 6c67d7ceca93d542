/** The bounded work pool: callers that enqueue chunks, workers that run them, and every way their steps interleave. */
module WorkPool {
  import opened Options
  import opened Counting
  import opened Partition

  /** Number of workers and capacity of the queue. */
  datatype Pool = Pool(threads: nat, bound: nat)

  datatype Task = Task(call: nat, chunk: nat)

  /** A nested call that a worker runs inline. */
  datatype Frame = Frame(count: nat, next: nat, failed: bool)

  /** Where a worker stands.  It sleeps without a task; from `Popped` to `Counted` it holds one. */
  datatype Worker =
    | Asleep
    | Awake
    | Popped(task: Task)
    | Working(task: Task, next: nat, failed: bool, nested: seq<Frame>)
    | Ran(task: Task)
    | Recorded(task: Task, recorded: bool)
    | Counted(task: Task, recorded: bool)
    | Exited

  datatype ChunkState = Unqueued | Queued | Held | Finished

  /** Where a caller of `parallel_for` stands. */
  datatype Point = Entering | WaitingForSpace(notified: bool) | Announcing | Awaiting | Closing | Returned | Thrown

  /** A call, with its completion record, how often each index was run, and which chunks left a receipt. */
  datatype Call = Call(count: nat, point: Point, remaining: nat, error: bool, runs: seq<nat>, chunks: seq<ChunkState>,
                       receipts: seq<bool>)

  datatype PoolState = PoolState(queue: seq<Task>, workers: seq<Worker>, calls: seq<Call>, active: nat, stopping: bool,
                                 receiptError: bool)

  function Chunks(p: Pool, count: nat): nat { if count < p.threads then count else p.threads }

  function Begins(p: Pool, count: nat, k: nat): nat
    requires Chunks(p, count) > 0
  {
    First(count, Chunks(p, count), k)
  }

  // ---- steps -----------------------------------------------------------------------------------------------

  datatype Action =
    | Submit(c: nat, flushed: bool)
    | Retry(c: nat)
    | Announce(c: nat)
    | Observe(c: nat)
    | Shut(c: nat, flushed: bool)
    | Take(w: nat, waiter: nat)
    | Wake(w: nat)
    | Activate(w: nat)
    | RunIndex(w: nat, throws: bool)
    | Nest(w: nat, count: nat)
    | RunNested(w: nat, throws: bool)
    | EndNested(w: nat, recorded: bool)
    | EndChunk(w: nat)
    | Record(w: nat, recorded: bool)
    | Deactivate(w: nat)
    | Complete(w: nat)
    | Stop

  function Holding(w: Worker): Option<Task> {
    match w
    case Asleep => None
    case Awake => None
    case Popped(t) => Some(t)
    case Working(t, _, _, _) => Some(t)
    case Ran(t) => Some(t)
    case Recorded(t, _) => Some(t)
    case Counted(t, _) => Some(t)
    case Exited => None
  }

  function SetWorker(s: PoolState, w: nat, x: Worker): PoolState
    requires w < |s.workers|
  {
    s.(workers := s.workers[w := x])
  }

  function SetCall(s: PoolState, c: nat, x: Call): PoolState
    requires c < |s.calls|
  {
    s.(calls := s.calls[c := x])
  }

  function Mark(s: PoolState, t: Task, x: ChunkState): (r: PoolState)
    ensures |r.calls| == |s.calls|
  {
    if t.call < |s.calls| && t.chunk < |s.calls[t.call].chunks| then
      SetCall(s, t.call, s.calls[t.call].(chunks := s.calls[t.call].chunks[t.chunk := x]))
    else s
  }

  function AllTasks(c: nat, n: nat): (t: seq<Task>)
    ensures |t| == n && forall k | 0 <= k < n :: t[k] == Task(c, k)
  {
    seq(n, k requires 0 <= k < n => Task(c, k))
  }

  /** Putting all chunks of a call on the queue at once, or waiting, or being turned away. */
  function Enqueue(p: Pool, s: PoolState, c: nat): PoolState
    requires c < |s.calls|
  {
    var call := s.calls[c];
    var n := Chunks(p, call.count);
    if s.stopping then SetCall(s, c, call.(point := Announcing, remaining := 0, error := true))
    else if |s.queue| + n > p.bound then SetCall(s, c, call.(point := WaitingForSpace(false)))
    else
      SetCall(s, c, call.(point := Announcing, remaining := n, chunks := seq(n, k => Queued)))
        .(queue := s.queue + AllTasks(c, n))
  }

  predicate Waits(s: PoolState, c: nat) { c < |s.calls| && s.calls[c].point == WaitingForSpace(false) }

  ghost predicate Enabled(p: Pool, s: PoolState, a: Action) {
    match a
    case Submit(c, _) => c < |s.calls| && s.calls[c].point.Entering?
    case Retry(c) => c < |s.calls| && s.calls[c].point.WaitingForSpace?
    case Announce(c) => c < |s.calls| && s.calls[c].point.Announcing?
    case Observe(c) => c < |s.calls| && s.calls[c].point.Awaiting? && s.calls[c].remaining == 0
    case Shut(c, _) => c < |s.calls| && s.calls[c].point.Closing?
    case Take(w, waiter) =>
      w < |s.workers| && s.workers[w].Awake?
      && (s.queue != [] && (exists c :: Waits(s, c)) ==> Waits(s, waiter))
    case Wake(w) => w < |s.workers| && s.workers[w].Asleep?
    case Activate(w) => w < |s.workers| && s.workers[w].Popped? && HasCall(p, s, s.workers[w].task)
    case RunIndex(w, _) => AtIndex(p, s, w) && s.workers[w].nested == []
    case Nest(w, _) => AtIndex(p, s, w) && (s.workers[w].nested != [] ==> Top(s.workers[w]).next < Top(s.workers[w]).count)
    case RunNested(w, _) => InNested(s, w) && Top(s.workers[w]).next < Top(s.workers[w]).count
    case EndNested(w, _) => InNested(s, w) && Top(s.workers[w]).next == Top(s.workers[w]).count
    case EndChunk(w) =>
      w < |s.workers| && s.workers[w].Working? && s.workers[w].nested == [] && HasCall(p, s, s.workers[w].task)
      && s.workers[w].next == Begins(p, s.calls[s.workers[w].task.call].count, s.workers[w].task.chunk + 1)
    case Record(w, _) => w < |s.workers| && s.workers[w].Ran? && HasCall(p, s, s.workers[w].task)
    case Deactivate(w) => w < |s.workers| && s.workers[w].Recorded? && s.active > 0
    case Complete(w) =>
      w < |s.workers| && s.workers[w].Counted? && HasCall(p, s, s.workers[w].task) && s.calls[s.workers[w].task.call].remaining > 0
    case Stop => true
  }

  predicate HasCall(p: Pool, s: PoolState, t: Task) {
    t.call < |s.calls| && 0 < Chunks(p, s.calls[t.call].count) && t.chunk < Chunks(p, s.calls[t.call].count)
    && |s.calls[t.call].chunks| == |s.calls[t.call].receipts| == Chunks(p, s.calls[t.call].count)
    && |s.calls[t.call].runs| == s.calls[t.call].count
  }

  predicate AtIndex(p: Pool, s: PoolState, w: nat) {
    w < |s.workers| && s.workers[w].Working? && HasCall(p, s, s.workers[w].task)
    && s.workers[w].next < Begins(p, s.calls[s.workers[w].task.call].count, s.workers[w].task.chunk + 1)
    && s.workers[w].next < s.calls[s.workers[w].task.call].count
  }

  predicate InNested(s: PoolState, w: nat) {
    w < |s.workers| && s.workers[w].Working? && s.workers[w].nested != []
  }

  function Top(w: Worker): Frame
    requires w.Working? && w.nested != []
  {
    w.nested[|w.nested| - 1]
  }

  function Below(w: Worker): seq<Frame>
    requires w.Working? && w.nested != []
  {
    w.nested[..|w.nested| - 1]
  }

  function Awoken(w: Worker): Worker { if w.Asleep? then Awake else w }

  function AllAwoken(s: PoolState): PoolState {
    s.(workers := seq(|s.workers|, w requires 0 <= w < |s.workers| => Awoken(s.workers[w])))
  }

  function Notified(c: Call): Call { if c.point.WaitingForSpace? then c.(point := WaitingForSpace(true)) else c }

  function AllNotified(calls: seq<Call>): (r: seq<Call>)
    ensures |r| == |calls| && forall c | 0 <= c < |calls| :: r[c] == Notified(calls[c])
  {
    seq(|calls|, c requires 0 <= c < |calls| => Notified(calls[c]))
  }

  ghost function Apply(p: Pool, s: PoolState, a: Action): PoolState
    requires Enabled(p, s, a)
  {
    match a
    case Submit(c, flushed) =>
      var call := s.calls[c];
      if s.receiptError then SetCall(s, c, call.(point := Thrown))
      else if call.count == 0 then
        SetCall(s, c, call.(point := if flushed then Returned else Thrown)).(receiptError := !flushed)
      else if p.threads == 0 || Chunks(p, call.count) > p.bound then SetCall(s, c, call.(point := Thrown))
      else Enqueue(p, s, c)
    case Retry(c) => Enqueue(p, s, c)
    case Announce(c) => AllAwoken(SetCall(s, c, s.calls[c].(point := Awaiting)))
    case Observe(c) => SetCall(s, c, s.calls[c].(point := Closing))
    case Shut(c, flushed) =>
      var call := s.calls[c];
      SetCall(s, c, call.(point := if call.error || !flushed || s.receiptError then Thrown else Returned))
        .(receiptError := s.receiptError || !flushed)
    case Take(w, waiter) =>
      if s.queue == [] then SetWorker(s, w, if s.stopping then Exited else Asleep)
      else
        var popped := Mark(SetWorker(s, w, Popped(s.queue[0])).(queue := s.queue[1..]), s.queue[0], Held);
        if Waits(s, waiter) then SetCall(popped, waiter, Notified(popped.calls[waiter])) else popped
    case Wake(w) => SetWorker(s, w, Awake)
    case Activate(w) =>
      var t := s.workers[w].task;
      SetWorker(s, w, Working(t, Begins(p, s.calls[t.call].count, t.chunk), false, [])).(active := s.active + 1)
    case RunIndex(w, throws) =>
      var x := s.workers[w];
      var call := s.calls[x.task.call];
      SetCall(SetWorker(s, w, x.(next := x.next + 1, failed := x.failed || throws)), x.task.call,
              call.(runs := call.runs[x.next := call.runs[x.next] + 1]))
    case Nest(w, count) => SetWorker(s, w, s.workers[w].(nested := s.workers[w].nested + [Frame(count, 0, false)]))
    case RunNested(w, throws) =>
      var f := Top(s.workers[w]);
      SetWorker(s, w, s.workers[w].(nested := Below(s.workers[w]) + [Frame(f.count, f.next + 1, f.failed || throws)]))
    case EndNested(w, recorded) =>
      SetWorker(s, w, s.workers[w].(nested := Below(s.workers[w]))).(receiptError := s.receiptError || !recorded)
    case EndChunk(w) =>
      var x := s.workers[w];
      var call := s.calls[x.task.call];
      SetCall(SetWorker(s, w, Ran(x.task)), x.task.call, call.(error := call.error || x.failed))
    case Record(w, recorded) =>
      var t := s.workers[w].task;
      var call := s.calls[t.call];
      SetCall(SetWorker(s, w, Recorded(t, recorded)), t.call, call.(receipts := call.receipts[t.chunk := recorded]))
        .(receiptError := s.receiptError || !recorded)
    case Deactivate(w) => SetWorker(s, w, Counted(s.workers[w].task, s.workers[w].recorded)).(active := s.active - 1)
    case Complete(w) =>
      var t := s.workers[w].task;
      var call := s.calls[t.call];
      SetCall(SetWorker(s, w, Awake), t.call,
              call.(error := call.error || !s.workers[w].recorded, remaining := call.remaining - 1,
                    chunks := call.chunks[t.chunk := Finished]))
    case Stop =>
      AllAwoken(s.(stopping := true, calls := AllNotified(s.calls)))
  }

  // ---- the invariant ---------------------------------------------------------------------------------------

  function Unfinished(chunks: seq<ChunkState>): (n: nat)
    ensures n <= |chunks|
  {
    if chunks == [] then 0
    else Unfinished(chunks[..|chunks| - 1]) + if chunks[|chunks| - 1].Finished? then 0 else 1
  }

  /** Where in its chunk a worker is. */
  function Position(p: Pool, s: PoolState, w: Worker): nat
    requires Holding(w).Some? && HasCall(p, s, Holding(w).value)
  {
    var t := Holding(w).value;
    if w.Popped? then Begins(p, s.calls[t.call].count, t.chunk)
    else if w.Working? then w.next
    else Begins(p, s.calls[t.call].count, t.chunk + 1)
  }

  predicate RanOnce(p: Pool, call: Call, k: nat, upto: nat)
    requires 0 < Chunks(p, call.count) && k < Chunks(p, call.count) && |call.runs| == call.count
  {
    && Begins(p, call.count, k) <= upto <= Begins(p, call.count, k + 1) <= call.count
    && (forall i | Begins(p, call.count, k) <= i < Begins(p, call.count, k + 1) :: call.runs[i] == if i < upto then 1 else 0)
  }

  /** No chunk was ever queued. */
  predicate Untouched(call: Call) { forall k | 0 <= k < |call.chunks| :: call.chunks[k].Unqueued? }

  /** Chunks that are not being run were run completely or not at all, and finished ones left a receipt. */
  ghost predicate RunsOk(p: Pool, call: Call)
    requires |call.runs| == call.count && |call.chunks| == |call.receipts| == Chunks(p, call.count)
  {
    && (forall k | 0 <= k < |call.chunks| && (call.chunks[k].Unqueued? || call.chunks[k].Queued?) ::
          RanOnce(p, call, k, Begins(p, call.count, k)))
    && (forall k | 0 <= k < |call.chunks| && call.chunks[k].Finished? ::
          RanOnce(p, call, k, Begins(p, call.count, k + 1)) && (call.error || call.receipts[k]))
  }

  ghost predicate CallOk(p: Pool, call: Call) {
    && |call.runs| == call.count && |call.chunks| == |call.receipts| == Chunks(p, call.count)
    && (call.point.Entering? || call.point.WaitingForSpace? ==> Untouched(call) && !call.error)
    && (call.point.WaitingForSpace? ==> 0 < |call.chunks| <= p.bound)
    && (call.point.Announcing? || call.point.Awaiting? || call.point.Closing? ==>
          |call.chunks| > 0 &&
          (if Untouched(call) then call.error && call.remaining == 0
           else call.remaining == Unfinished(call.chunks) && forall k | 0 <= k < |call.chunks| :: !call.chunks[k].Unqueued?))
    && (call.point.Closing? ==> call.remaining == 0)
    && (call.point.Returned? ==> !call.error && (call.count == 0 || |call.chunks| > 0) && forall k | 0 <= k < |call.chunks| :: call.chunks[k].Finished?)
    && (call.point.Thrown? ==> forall k | 0 <= k < |call.chunks| :: call.chunks[k].Finished? || call.chunks[k].Unqueued?)
    && RunsOk(p, call)
  }

  predicate IsChunk(s: PoolState, t: Task, x: ChunkState) {
    t.call < |s.calls| && t.chunk < |s.calls[t.call].chunks| && s.calls[t.call].chunks[t.chunk] == x
  }

  /** The queue holds exactly the queued chunks, each once. */
  ghost predicate QueueOk(p: Pool, s: PoolState) {
    && |s.queue| <= p.bound && Distinct(s.queue)
    && (forall t :: t in s.queue <==> IsChunk(s, t, Queued))
  }

  ghost predicate Holder(s: PoolState, w: nat, t: Task) { w < |s.workers| && Holding(s.workers[w]) == Some(t) }

  /** The workers hold exactly the held chunks, each once. */
  ghost predicate HoldersOk(p: Pool, s: PoolState) {
    && |s.workers| == p.threads
    && (forall t :: IsChunk(s, t, Held) <==> exists w :: Holder(s, w, t))
    && (forall w, v, t :: Holder(s, w, t) && Holder(s, v, t) ==> w == v)
  }

  ghost predicate WorkerOk(p: Pool, s: PoolState, w: Worker) {
    && (Holding(w).Some? ==>
          HasCall(p, s, Holding(w).value)
          && RanOnce(p, s.calls[Holding(w).value.call], Holding(w).value.chunk, Position(p, s, w)))
    && ((w.Recorded? || w.Counted?) && w.recorded ==> s.calls[Holding(w).value.call].receipts[Holding(w).value.chunk])
    && (w.Working? ==> forall f | f in w.nested :: f.next <= f.count)
  }

  predicate IsActive(w: Worker) { w.Working? || w.Ran? || w.Recorded? }

  function ActiveCount(workers: seq<Worker>): (n: nat) {
    if workers == [] then 0 else ActiveCount(workers[..|workers| - 1]) + if IsActive(workers[|workers| - 1]) then 1 else 0
  }

  /** No wake-up is lost: a caller left waiting has queued work ahead of it or a notified caller before it; a worker
      sleeps through queued work only until the enqueuing caller has announced it. */
  ghost predicate WakeOk(s: PoolState) {
    && ((exists c :: Waits(s, c)) ==> s.queue != [] || exists c :: IsNotified(s, c))
    && (s.queue != [] && (exists w :: 0 <= w < |s.workers| && s.workers[w].Asleep?) ==> exists c :: Announces(s, c))
    && (s.stopping ==> !exists c :: Waits(s, c))
    && ((exists w :: 0 <= w < |s.workers| && s.workers[w].Exited?) ==> s.stopping && s.queue == [])
    && (s.stopping && (exists w :: 0 <= w < |s.workers| && s.workers[w].Asleep?) ==> false)
  }

  predicate IsNotified(s: PoolState, c: nat) { c < |s.calls| && s.calls[c].point == WaitingForSpace(true) }

  predicate Announces(s: PoolState, c: nat) { c < |s.calls| && s.calls[c].point.Announcing? }

  ghost predicate Inv(p: Pool, s: PoolState) {
    && (forall c | 0 <= c < |s.calls| :: CallOk(p, s.calls[c]))
    && QueueOk(p, s) && HoldersOk(p, s)
    && (forall w | 0 <= w < |s.workers| :: WorkerOk(p, s, s.workers[w]))
    && s.active == ActiveCount(s.workers) && WakeOk(s)
  }
}
