/** First come, first served: workers take the chunks in the order in which callers have put them on the queue. */
module PoolOrder {
  import opened Partition
  import opened WorkPool
  import opened PoolGuarantees

  /** The chunk a worker comes by in a step. */
  function TakenBy(t: PoolState, a: Action): seq<Task> {
    if a.Take? && a.w < |t.workers| && Holding(t.workers[a.w]).Some? then [Holding(t.workers[a.w]).value] else []
  }

  /** The chunks of a call that is queued in a step, in their own order. */
  function AddedBy(s: PoolState, t: PoolState, a: Action): seq<Task> {
    if (a.Submit? || a.Retry?) && a.c < |s.calls| == |t.calls| && t.calls[a.c].chunks != s.calls[a.c].chunks then
      AllTasks(a.c, |t.calls[a.c].chunks|)
    else []
  }

  ghost function Taken(p: Pool, s: PoolState, run: seq<Action>): seq<Task>
    requires Possible(p, s, run)
    decreases |run|
  {
    if run == [] then [] else TakenBy(Apply(p, s, run[0]), run[0]) + Taken(p, Apply(p, s, run[0]), run[1..])
  }

  ghost function Added(p: Pool, s: PoolState, run: seq<Action>): seq<Task>
    requires Possible(p, s, run)
    decreases |run|
  {
    if run == [] then [] else AddedBy(s, Apply(p, s, run[0]), run[0]) + Added(p, Apply(p, s, run[0]), run[1..])
  }

  lemma CallerOrder(p: Pool, s: PoolState, a: Action)
    requires Inv(p, s) && Enabled(p, s, a) && (a.Submit? || a.Retry?)
    ensures s.queue + AddedBy(s, Apply(p, s, a), a) == TakenBy(Apply(p, s, a), a) + Apply(p, s, a).queue
  {
    hide First, RunsOk, WorkerOk, WakeOk, QueueOk, HoldersOk;
    var call := s.calls[a.c];
    assert CallOk(p, call);
    var n := Chunks(p, call.count);
    assert n > 0 ==> call.chunks[0].Unqueued? && seq(n, k => Queued)[0].Queued?;
  }

  lemma TakeOrder(p: Pool, s: PoolState, a: Action)
    requires Inv(p, s) && Enabled(p, s, a) && a.Take?
    ensures s.queue + AddedBy(s, Apply(p, s, a), a) == TakenBy(Apply(p, s, a), a) + Apply(p, s, a).queue
  {
    hide Inv;
    if s.queue != [] { assert s.queue == [s.queue[0]] + s.queue[1..]; }
  }

  lemma OtherOrder(p: Pool, s: PoolState, a: Action)
    requires Enabled(p, s, a) && !a.Submit? && !a.Retry? && !a.Take?
    ensures Apply(p, s, a).queue == s.queue
  {
    hide HasCall, AtIndex;
  }

  lemma StepOrder(p: Pool, s: PoolState, a: Action)
    requires Inv(p, s) && Enabled(p, s, a)
    ensures s.queue + AddedBy(s, Apply(p, s, a), a) == TakenBy(Apply(p, s, a), a) + Apply(p, s, a).queue
  {
    hide Inv, Enabled, Apply;
    if a.Submit? || a.Retry? {
      CallerOrder(p, s, a);
    } else if a.Take? {
      TakeOrder(p, s, a);
    } else {
      OtherOrder(p, s, a);
    }
  }

  /** What is queued at first and what callers add, in that order, is what workers take, in that order, and what is left. */
  lemma {:induction false} FirstComeFirstServed(p: Pool, s: PoolState, run: seq<Action>)
    requires Inv(p, s) && Possible(p, s, run)
    ensures s.queue + Added(p, s, run) == Taken(p, s, run) + After(p, s, run).queue
    decreases |run|
  {
    hide Inv, Enabled, Apply, AddedBy, TakenBy;
    if run != [] {
      var t := Apply(p, s, run[0]);
      StepKeeps(p, s, run[0]);
      StepOrder(p, s, run[0]);
      FirstComeFirstServed(p, t, run[1..]);
      var added, taken := Added(p, t, run[1..]), Taken(p, t, run[1..]);
      calc {
        s.queue + Added(p, s, run);
        s.queue + (AddedBy(s, t, run[0]) + added);
        (s.queue + AddedBy(s, t, run[0])) + added;
        (TakenBy(t, run[0]) + t.queue) + added;
        TakenBy(t, run[0]) + (t.queue + added);
        TakenBy(t, run[0]) + (taken + After(p, t, run[1..]).queue);
        Taken(p, s, run) + After(p, s, run).queue;
      }
    }
  }
}
