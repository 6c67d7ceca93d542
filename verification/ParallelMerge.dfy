/** Chunks of routes searched separately and merged into one output. */
module ParallelMerge {
  import opened EvrptwModel
  import opened Counting
  import opened StableSort
  import opened Partition
  import opened ChargingSearch
  import ChargingTermination
  import opened BatchReads
  import opened BatchRounds
  import opened BatchKernel
  import opened BatchOutputs

  datatype ParallelFailure = EmptyRequest | PoolDisabled | ChildReceiptInvalid

  datatype ParallelResult = Merged(output: BatchOutput) | Failed(failure: ParallelFailure)

  /** What the pool tells about one chunk: its worker and the times it ran. */
  datatype Stamp = Stamp(worker: int, started: nat, finished: nat)

  /** The orders of chunk `c`. */
  function ChunkOrders(orders: seq<seq<nat>>, count: nat, c: nat): seq<seq<nat>>
    requires 0 < count <= |orders| && c < count
  {
    FirstMonotone(|orders|, count, c, c + 1);
    FirstMonotone(|orders|, count, c + 1, count);
    orders[First(|orders|, count, c)..First(|orders|, count, c + 1)]
  }

  lemma ChunkReady(inst: Instance, eps: real, orders: seq<seq<nat>>, count: nat, c: nat)
    requires BatchReady(inst, eps, orders) && 0 < count <= |orders| && c < count
    ensures BatchReady(inst, eps, ChunkOrders(orders, count, c))
    ensures |ChunkOrders(orders, count, c)| == First(|orders|, count, c + 1) - First(|orders|, count, c) > 0
  {
    hide ValidProblem, Runnable, First, Size;
    FirstMonotone(|orders|, count, c, c + 1);
    FirstMonotone(|orders|, count, c + 1, count);
    var chunk, first := ChunkOrders(orders, count, c), First(|orders|, count, c);
    ChunksAdjacent(|orders|, count, c);
    forall r | 0 <= r < |chunk| ensures ValidProblem(ProblemOf(inst, eps, chunk, r)) {
      assert ProblemOf(inst, eps, chunk, r) == ProblemOf(inst, eps, orders, first + r);
    }
  }

  // ---- paths and offsets of two outputs in a row -----------------------------------------------------------

  lemma {:induction false} FlatAppend(a: seq<seq<nat>>, b: seq<seq<nat>>)
    ensures Flat(a + b) == Flat(a) + Flat(b)
  {
    if b == [] {
      assert a + b == a;
    } else {
      assert (a + b)[..|a + b| - 1] == a + b[..|b| - 1];
      FlatAppend(a, b[..|b| - 1]);
    }
  }

  /** Offsets of the second output, moved behind the first. */
  function Rebased(base: nat, offsets: seq<nat>): seq<nat>
    requires offsets != []
  {
    seq(|offsets| - 1, i requires 0 <= i < |offsets| - 1 => base + offsets[i + 1])
  }

  lemma OffsetsAppend(front: seq<nat>, a: seq<seq<nat>>, back: seq<nat>, b: seq<seq<nat>>)
    requires OffsetsMark(front, a) && OffsetsMark(back, b)
    ensures OffsetsMark(front + Rebased(front[|front| - 1], back), a + b)
  {
    hide Flat;
    var offsets, all, n := front + Rebased(front[|front| - 1], back), a + b, |a|;
    assert front[|front| - 1] == |Flat(a)| by { assert a[..n] == a; }
    forall r | 0 <= r <= |all| ensures offsets[r] == |Flat(all[..r])| {
      if r <= n {
        assert all[..r] == a[..r];
      } else {
        assert all[..r] == a + b[..r - n];
        FlatAppend(a, b[..r - n]);
        assert back[r - n] == |Flat(b[..r - n])|;
      }
    }
  }

  lemma {:induction false} CompletedAppend(a: seq<Status>, b: seq<Status>)
    ensures CompletedCount(a + b) == CompletedCount(a) + CompletedCount(b)
  {
    if b == [] {
      assert a + b == a;
    } else {
      assert (a + b)[..|a + b| - 1] == a + b[..|b| - 1];
      CompletedAppend(a, b[..|b| - 1]);
    }
  }

  /** Offsets, once marked, are determined by the paths. */
  lemma OffsetsOnce(a: seq<nat>, b: seq<nat>, paths: seq<seq<nat>>)
    requires OffsetsMark(a, paths) && OffsetsMark(b, paths)
    ensures a == b
  {
    hide Flat;
  }

  // ---- merging ---------------------------------------------------------------------------------------------

  /** The merged output so far reports the first `m` routes. */
  ghost predicate Joined(inst: Instance, eps: real, orders: seq<seq<nat>>, out: BatchOutput, paths: seq<seq<nat>>, m: nat)
    requires BatchReady(inst, eps, orders)
  {
    && m <= |orders| && |paths| == m && |out.statuses| == |out.reasons| == |out.metrics| == |out.labelCounters| == m
    && |out.completionRounds| == |orders| && |out.counters| == 10
    && OffsetsMark(out.pathOffsets, paths) && out.pathIndices == Flat(paths)
    && (forall r | 0 <= r < m ::
          Reported(ProblemOf(inst, eps, orders, r), out.statuses[r], out.reasons[r], out.metrics[r], out.labelCounters[r],
                   out.completionRounds[r], paths[r]))
    && (forall r | m <= r < |orders| :: out.completionRounds[r] == -1)
    && out.counters[2] == CompletedCount(out.statuses) && out.counters[3] == m - out.counters[2]
    && out.counters[0] == out.counters[1] == |orders| && out.counters[4] == out.counters[8] == 1
  }

  /** Appending one child output. */
  function Append(out: BatchOutput, child: BatchOutput, first: nat, row: TaskRow): BatchOutput
    requires |out.counters| == |child.counters| == 10 && out.pathOffsets != [] && child.pathOffsets != []
    requires first + |child.completionRounds| <= |out.completionRounds|
  {
    var c, d := out.counters, child.counters;
    out.(pathOffsets := out.pathOffsets + Rebased(out.pathOffsets[|out.pathOffsets| - 1], child.pathOffsets),
         pathIndices := out.pathIndices + child.pathIndices, statuses := out.statuses + child.statuses,
         reasons := out.reasons + child.reasons, metrics := out.metrics + child.metrics,
         labelCounters := out.labelCounters + child.labelCounters,
         counters := [c[0], c[1], c[2] + d[2], c[3] + d[3], c[4], c[5] + d[5], c[6] + d[6], c[7] + d[7], c[8], c[9]],
         completionRounds := out.completionRounds[..first] + child.completionRounds
                             + out.completionRounds[first + |child.completionRounds|..],
         tasks := out.tasks + [row])
  }

  lemma CompletedOf(inst: Instance, eps: real, orders: seq<seq<nat>>, out: BatchOutput, paths: seq<seq<nat>>, batchSize: nat)
    requires BatchReady(inst, eps, orders) && Reports(inst, eps, orders, out, paths) && Counted(out, |orders|, batchSize)
    ensures Lists(out.completionOrder, out.statuses)
    ensures out.counters[2] == CompletedCount(out.statuses) && out.counters[3] == |orders| - out.counters[2]
  {
    hide Flat, FinalOf, RoundsOf, RowOf, ValidProblem, Runnable, SortedByKey;
    forall r | 0 <= r < |orders| ensures out.completionRounds[r] > 0 <==> !out.statuses[r].InterruptedStatus? {
      RoundPositive(ProblemOf(inst, eps, orders, r), out.statuses[r], out.reasons[r], out.metrics[r], out.labelCounters[r],
                    out.completionRounds[r], paths[r]);
    }
    RecordedLists(out.completionOrder, out.completionRounds, out.statuses);
    CompletedAreListed(out.completionOrder, out.statuses);
  }

  lemma RoundPositive(p: Problem, status: Status, reason: Reason, metrics: Metrics, counters: Counters,
                      round: int, path: seq<nat>)
    requires ValidProblem(p) && Reported(p, status, reason, metrics, counters, round, path)
    ensures round > 0 <==> !status.InterruptedStatus?
    ensures round >= 0 <==> !status.InterruptedStatus?
  {
    hide FinalOf, RoundsOf;
  }

  lemma ChildJoined(inst: Instance, eps: real, orders: seq<seq<nat>>, count: nat, c: nat, out: BatchOutput, paths: seq<seq<nat>>,
                    child: BatchOutput, childPaths: seq<seq<nat>>, batchSize: nat, row: TaskRow)
    requires BatchReady(inst, eps, orders) && 0 < count <= |orders| && c < count
    requires BatchReady(inst, eps, ChunkOrders(orders, count, c))
    requires Joined(inst, eps, orders, out, paths, First(|orders|, count, c))
    requires Reports(inst, eps, ChunkOrders(orders, count, c), child, childPaths)
    requires Counted(child, |ChunkOrders(orders, count, c)|, batchSize)
    requires |ChunkOrders(orders, count, c)| == First(|orders|, count, c + 1) - First(|orders|, count, c)
    requires First(|orders|, count, c + 1) <= |orders|
    ensures Joined(inst, eps, orders, Append(out, child, First(|orders|, count, c), row), paths + childPaths,
                   First(|orders|, count, c + 1))
  {
    hide Flat, FinalOf, RoundsOf, RowOf, ValidProblem, Runnable, First, OffsetsMark, Reported, OrderRecorded, CompletedCount;
    var chunk, first := ChunkOrders(orders, count, c), First(|orders|, count, c);
    OffsetsAppend(out.pathOffsets, paths, child.pathOffsets, childPaths);
    FlatAppend(paths, childPaths);
    CompletedAppend(out.statuses, child.statuses);
    CompletedOf(inst, eps, chunk, child, childPaths, batchSize);
    ChildRows(inst, eps, orders, count, c, out, paths, child, childPaths, row);
  }

  /** The rows of the child are the rows of its routes in the whole. */
  lemma ChildRows(inst: Instance, eps: real, orders: seq<seq<nat>>, count: nat, c: nat, out: BatchOutput, paths: seq<seq<nat>>,
                  child: BatchOutput, childPaths: seq<seq<nat>>, row: TaskRow)
    requires BatchReady(inst, eps, orders) && 0 < count <= |orders| && c < count
    requires BatchReady(inst, eps, ChunkOrders(orders, count, c))
    requires Joined(inst, eps, orders, out, paths, First(|orders|, count, c))
    requires Reports(inst, eps, ChunkOrders(orders, count, c), child, childPaths) && |child.counters| == 10
    requires |ChunkOrders(orders, count, c)| == First(|orders|, count, c + 1) - First(|orders|, count, c)
    requires First(|orders|, count, c + 1) <= |orders|
    ensures var next := Append(out, child, First(|orders|, count, c), row);
      && (forall r | 0 <= r < First(|orders|, count, c + 1) ::
            Reported(ProblemOf(inst, eps, orders, r), next.statuses[r], next.reasons[r], next.metrics[r], next.labelCounters[r],
                     next.completionRounds[r], (paths + childPaths)[r]))
      && (forall r | First(|orders|, count, c + 1) <= r < |orders| :: next.completionRounds[r] == -1)
  {
    hide Flat, Metric, First, Reported, OrderRecorded, CompletedCount, Rebased, Append;
    var chunk, first, next := ChunkOrders(orders, count, c), First(|orders|, count, c), Append(out, child, First(|orders|, count, c), row);
    AppendedColumns(out, child, first, row);
    forall r | 0 <= r < First(|orders|, count, c + 1) ensures
      Reported(ProblemOf(inst, eps, orders, r), next.statuses[r], next.reasons[r], next.metrics[r], next.labelCounters[r],
               next.completionRounds[r], (paths + childPaths)[r])
    {
      if r >= first {
        assert ProblemOf(inst, eps, chunk, r - first) == ProblemOf(inst, eps, orders, r);
        assert (paths + childPaths)[r] == childPaths[r - first];
      }
    }
  }

  /** Where the columns of an appended output come from. */
  lemma AppendedColumns(out: BatchOutput, child: BatchOutput, first: nat, row: TaskRow)
    requires |out.counters| == |child.counters| == 10 && out.pathOffsets != [] && child.pathOffsets != []
    requires first + |child.completionRounds| <= |out.completionRounds|
    requires |out.statuses| == |out.reasons| == |out.metrics| == |out.labelCounters| == first
    requires |child.statuses| == |child.reasons| == |child.metrics| == |child.labelCounters| == |child.completionRounds|
    ensures var next, m := Append(out, child, first, row), |child.statuses|;
      && |next.statuses| == |next.reasons| == |next.metrics| == |next.labelCounters| == first + m
      && |next.completionRounds| == |out.completionRounds|
      && (forall r | 0 <= r < first ::
            next.statuses[r] == out.statuses[r] && next.reasons[r] == out.reasons[r] && next.metrics[r] == out.metrics[r]
            && next.labelCounters[r] == out.labelCounters[r] && next.completionRounds[r] == out.completionRounds[r])
      && (forall r | first <= r < first + m ::
            next.statuses[r] == child.statuses[r - first] && next.reasons[r] == child.reasons[r - first]
            && next.metrics[r] == child.metrics[r - first] && next.labelCounters[r] == child.labelCounters[r - first]
            && next.completionRounds[r] == child.completionRounds[r - first])
      && (forall r | first + m <= r < |out.completionRounds| :: next.completionRounds[r] == out.completionRounds[r])
  {
    hide Rebased;
  }

  // ---- physical order --------------------------------------------------------------------------------------

  /** The routes of the first `k` listed chunks that were not interrupted, each once. */
  ghost predicate PhysicalSoFar(order: seq<nat>, chunks: seq<nat>, k: nat, count: nat, statuses: seq<Status>)
    requires 0 < count && k <= |chunks|
  {
    && Distinct(order)
    && (forall r: nat :: r in order <==>
          r < |statuses| && !statuses[r].InterruptedStatus? && InListed(|statuses|, count, chunks, k, r))
  }

  predicate InListed(n: nat, count: nat, chunks: seq<nat>, k: nat, r: nat)
    requires count > 0 && k <= |chunks|
  {
    exists i | 0 <= i < k :: InChunk(n, count, chunks[i], r)
  }

  predicate InChunk(n: nat, count: nat, c: nat, r: nat)
    requires count > 0
  {
    First(n, count, c) <= r < First(n, count, c + 1)
  }

  function Shifted(order: seq<nat>, first: nat): seq<nat> {
    seq(|order|, i requires 0 <= i < |order| => first + order[i])
  }

  lemma PhysicalStep(order: seq<nat>, chunks: seq<nat>, k: nat, count: nat, statuses: seq<Status>, child: BatchOutput)
    requires 0 < count <= |statuses| && k < |chunks| && Distinct(chunks) && forall i | 0 <= i < |chunks| :: chunks[i] < count
    requires PhysicalSoFar(order, chunks, k, count, statuses)
    requires Lists(child.completionOrder, child.statuses)
    requires First(|statuses|, count, chunks[k]) <= First(|statuses|, count, chunks[k] + 1) <= |statuses|
    requires child.statuses == statuses[First(|statuses|, count, chunks[k])..First(|statuses|, count, chunks[k] + 1)]
    ensures PhysicalSoFar(order + Shifted(child.completionOrder, First(|statuses|, count, chunks[k])), chunks, k + 1, count, statuses)
  {
    hide First, Distinct;
    var first, more := First(|statuses|, count, chunks[k]), Shifted(child.completionOrder, First(|statuses|, count, chunks[k]));
    ShiftedLists(child.completionOrder, child.statuses, first, statuses, First(|statuses|, count, chunks[k] + 1));
    forall r: nat | r in order ensures r !in more {
      var i :| 0 <= i < k && InChunk(|statuses|, count, chunks[i], r);
      if r in more { InOneChunk(|statuses|, count, r, chunks[i], chunks[k]); }
      Apart(chunks, i, k);
    }
    DistinctAppend(order, more);
    assert forall r: nat :: InListed(|statuses|, count, chunks, k + 1, r) <==>
      InListed(|statuses|, count, chunks, k, r) || InChunk(|statuses|, count, chunks[k], r);
  }

  lemma Apart(s: seq<nat>, i: nat, j: nat)
    requires Distinct(s) && i < j < |s|
    ensures s[i] != s[j]
  {
  }

  lemma DistinctAppend(a: seq<nat>, b: seq<nat>)
    requires Distinct(a) && Distinct(b) && forall x | x in a :: x !in b
    ensures Distinct(a + b)
  {
    assert forall i | 0 <= i < |a| :: a[i] in a;
    assert forall i | 0 <= i < |b| :: b[i] in b;
  }

  lemma ShiftedLists(order: seq<nat>, part: seq<Status>, first: nat, statuses: seq<Status>, last: nat)
    requires Lists(order, part) && first <= last <= |statuses| && part == statuses[first..last]
    ensures Distinct(Shifted(order, first))
    ensures forall r: nat :: r in Shifted(order, first) <==> first <= r < last && !statuses[r].InterruptedStatus?
  {
    var more := Shifted(order, first);
    forall r: nat ensures r in more <==> r >= first && r - first in order {
      if r >= first && r - first in order {
        var i :| 0 <= i < |order| && order[i] == r - first;
        assert more[i] == r;
      }
    }
  }

  /** All chunks in any order give all routes. */
  lemma PhysicalComplete(order: seq<nat>, chunks: seq<nat>, count: nat, statuses: seq<Status>)
    requires 0 < count <= |statuses| && PhysicalSoFar(order, chunks, |chunks|, count, statuses)
    requires forall c: nat | c < count :: c in chunks
    ensures Lists(order, statuses)
  {
    hide First;
    var n := |statuses|;
    forall r: nat | r < n ensures InListed(n, count, chunks, |chunks|, r) {
      ChunksAdjacent(n, count, 0);
      var c := InSomeChunk(n, count, count, r);
      assert c in chunks;
      var i :| 0 <= i < |chunks| && chunks[i] == c;
      assert InChunk(n, count, chunks[i], r);
    }
  }

  // ---- the run ---------------------------------------------------------------------------------------------

  /** The routes reported with a round, sorted, are the completion order of one whole batch. */
  lemma OrderRebuilt(inst: Instance, eps: real, orders: seq<seq<nat>>, out: BatchOutput, paths: seq<seq<nat>>)
    requires BatchReady(inst, eps, orders) && Joined(inst, eps, orders, out, paths, |orders|)
    ensures OrderRecorded(SortedByKey(out.completionRounds, |orders|, 0), out.completionRounds)
    ensures Lists(SortedByKey(out.completionRounds, |orders|, 0), out.statuses)
  {
    hide Flat, FinalOf, RoundsOf, RowOf, ValidProblem, Runnable, OffsetsMark;
    var rounds, sorted := out.completionRounds, SortedByKey(out.completionRounds, |orders|, 0);
    SortedRanked(rounds, |orders|, 0);
    forall r | 0 <= r < |orders|
      ensures (rounds[r] > 0 <==> !out.statuses[r].InterruptedStatus?) && (rounds[r] >= 0 <==> !out.statuses[r].InterruptedStatus?)
    {
      RoundPositive(ProblemOf(inst, eps, orders, r), out.statuses[r], out.reasons[r], out.metrics[r], out.labelCounters[r],
                    rounds[r], paths[r]);
    }
    assert forall i | 0 <= i < |sorted| :: sorted[i] in sorted;
    RecordedLists(sorted, rounds, out.statuses);
  }

  /** What one chunk's search returned. */
  ghost predicate ChildRan(inst: Instance, eps: real, orders: seq<seq<nat>>, count: nat, c: nat, child: BatchOutput,
                           paths: seq<seq<nat>>, batchSize: nat, expired: nat -> bool)
    requires BatchReady(inst, eps, orders) && 0 < count <= |orders| && c < count && batchSize > 0
  {
    ChunkReady(inst, eps, orders, count, c);
    var chunk := ChunkOrders(orders, count, c);
    && Timely(inst, eps, chunk, batchSize, expired, child)
    && Reports(inst, eps, chunk, child, paths) && Counted(child, |chunk|, batchSize)
    && ((forall i: nat :: !expired(i)) ==> forall r | 0 <= r < |chunk| :: !child.statuses[r].InterruptedStatus?)
  }

  /** The chunk's searches halt, or its deadline passes. */
  ghost predicate ChunkEnds(inst: Instance, eps: real, orders: seq<seq<nat>>, count: nat, c: nat, expired: nat -> bool)
    requires BatchReady(inst, eps, orders) && 0 < count <= |orders| && c < count
  {
    ChunkReady(inst, eps, orders, count, c);
    WillEnd(inst, eps, ChunkOrders(orders, count, c), expired)
  }

  /** Separated stations are enough, under any deadline and at any tolerance. */
  lemma SeparatedChunksEnd(inst: Instance, eps: real, orders: seq<seq<nat>>, count: nat, c: nat, expired: nat -> bool)
    requires BatchReady(inst, eps, orders) && 0 < count <= |orders| && c < count && ChargingTermination.Separated(inst)
    ensures ChunkEnds(inst, eps, orders, count, c, expired)
  {
    hide ValidProblem, WillEnd, ChunkOrders;
    ChunkReady(inst, eps, orders, count, c);
    SeparatedEnds(inst, eps, ChunkOrders(orders, count, c), expired);
  }

  method RunChunk(inst: Instance, eps: real, orders: seq<seq<nat>>, count: nat, c: nat, batchSize: nat, expired: nat -> bool)
    returns (child: BatchOutput, ghost paths: seq<seq<nat>>)
    requires BatchReady(inst, eps, orders) && 0 < count <= |orders| && c < count && batchSize > 0 && Monotone(expired)
    requires ChunkEnds(inst, eps, orders, count, c, expired)
    ensures ChildRan(inst, eps, orders, count, c, child, paths, batchSize, expired)
  {
    hide ValidProblem, Monotone, WillEnd, Reports, Counted, ChunkOrders;
    ChunkReady(inst, eps, orders, count, c);
    child, paths := RunExactChargingBatch(inst, eps, ChunkOrders(orders, count, c), batchSize, expired);
  }

  /** The pool runs the chunks in any order, each filling its own slot. */
  method RunChunks(inst: Instance, eps: real, orders: seq<seq<nat>>, count: nat, batchSize: nat, schedule: seq<nat>,
                   deadlines: nat -> nat -> bool)
    returns (children: seq<BatchOutput>, ghost paths: seq<seq<seq<nat>>>)
    requires BatchReady(inst, eps, orders) && 0 < count <= |orders| && batchSize > 0
    requires forall c: nat :: Monotone(deadlines(c))
    requires forall c | 0 <= c < count :: ChunkEnds(inst, eps, orders, count, c, deadlines(c))
    requires (forall i | 0 <= i < |schedule| :: schedule[i] < count) && forall c: nat | c < count :: c in schedule
    ensures |children| == |paths| == count
    ensures forall c | 0 <= c < count :: ChildRan(inst, eps, orders, count, c, children[c], paths[c], batchSize, deadlines(c))
  {
    hide Monotone, ChildRan, ChunkOrders, First, ChunkEnds;
    children := seq(count, c => NothingDone(0, 0, 0));
    paths := seq(count, c => []);
    for i := 0 to |schedule|
      invariant |children| == |paths| == count
      invariant forall c | 0 <= c < count && c in schedule[..i] ::
        ChildRan(inst, eps, orders, count, c, children[c], paths[c], batchSize, deadlines(c))
    {
      var c := schedule[i];
      var child, childPaths := RunChunk(inst, eps, orders, count, c, batchSize, deadlines(c));
      children, paths := children[c := child], paths[c := childPaths];
      assert schedule[..i + 1] == schedule[..i] + [c];
    }
    assert schedule[..|schedule|] == schedule;
  }

  predicate StampInvalid(stamp: Stamp, submitted: nat) {
    stamp.worker < 0 || stamp.started < submitted || stamp.finished < stamp.started
  }

  function RowFor(n: nat, count: nat, c: nat, submitted: nat, stamp: Stamp): TaskRow
    requires 0 < count
  {
    TaskRow(c, stamp.worker, First(n, count, c), First(n, count, c + 1), submitted, stamp.started, stamp.finished)
  }

  ghost predicate SliceOf(statuses: seq<Status>, n: nat, count: nat, c: nat, part: seq<Status>)
    requires 0 < count
  {
    First(n, count, c) <= First(n, count, c + 1) <= |statuses|
    && statuses[First(n, count, c)..First(n, count, c + 1)] == part
  }

  /** The first `c` chunks are merged. */
  ghost predicate MergedUpTo(inst: Instance, eps: real, orders: seq<seq<nat>>, count: nat, submitted: nat, stamps: nat -> Stamp,
                             children: seq<BatchOutput>, out: BatchOutput, paths: seq<seq<nat>>, c: nat)
    requires BatchReady(inst, eps, orders) && 0 < count && c <= |children|
  {
    && Joined(inst, eps, orders, out, paths, First(|orders|, count, c)) && out.counters[9] == 0
    && |out.tasks| == c && (forall b | 0 <= b < c :: out.tasks[b] == RowFor(|orders|, count, b, submitted, stamps(b)))
    && (forall b | 0 <= b < c :: SliceOf(out.statuses, |orders|, count, b, children[b].statuses))
    && out.completionOrder == [] && out.physicalOrder == [] && Summed(out, children[..c])
  }

  /** Batches, requests and reads of all parts. */
  ghost predicate Summed(out: BatchOutput, parts: seq<BatchOutput>) {
    && |out.counters| == 10 && (forall b | 0 <= b < |parts| :: |parts[b].counters| == 10)
    && (forall i | 5 <= i <= 7 :: out.counters[i] == SumOf(parts, i))
  }

  function SumOf(parts: seq<BatchOutput>, i: nat): nat
    requires i < 10 && forall b | 0 <= b < |parts| :: |parts[b].counters| == 10
  {
    if parts == [] then 0 else SumOf(parts[..|parts| - 1], i) + parts[|parts| - 1].counters[i]
  }

  lemma SumOn(out: BatchOutput, child: BatchOutput, first: nat, row: TaskRow, parts: seq<BatchOutput>)
    requires |out.counters| == |child.counters| == 10 && out.pathOffsets != [] && child.pathOffsets != []
    requires first + |child.completionRounds| <= |out.completionRounds| && Summed(out, parts)
    ensures Summed(Append(out, child, first, row), parts + [child])
  {
    assert (parts + [child])[..|parts|] == parts;
  }

  lemma ChildExtents(inst: Instance, eps: real, orders: seq<seq<nat>>, count: nat, c: nat, child: BatchOutput, paths: seq<seq<nat>>,
                     batchSize: nat, expired: nat -> bool)
    requires BatchReady(inst, eps, orders) && 0 < count <= |orders| && c < count && batchSize > 0
    requires ChildRan(inst, eps, orders, count, c, child, paths, batchSize, expired)
    ensures First(|orders|, count, c) < First(|orders|, count, c + 1) <= |orders|
    ensures |child.statuses| == |child.completionRounds| == First(|orders|, count, c + 1) - First(|orders|, count, c)
    ensures |child.counters| == 10 && child.pathOffsets != [] && child.counters[9] == batchSize
    ensures Lists(child.completionOrder, child.statuses)
    ensures (forall i: nat :: !expired(i)) ==> forall r | 0 <= r < |child.statuses| :: !child.statuses[r].InterruptedStatus?
  {
    hide First, ValidProblem, Runnable, Reported, Flat, OrderRecorded, Lists, Timely, OffsetsMark;
    ChunkReady(inst, eps, orders, count, c);
    PathsMarked(inst, eps, orders, count, c, child, paths, batchSize, expired);
    FirstMonotone(|orders|, count, c + 1, count);
    CompletedOf(inst, eps, ChunkOrders(orders, count, c), child, paths, batchSize);
  }

  lemma PathsMarked(inst: Instance, eps: real, orders: seq<seq<nat>>, count: nat, c: nat, child: BatchOutput, paths: seq<seq<nat>>,
                    batchSize: nat, expired: nat -> bool)
    requires BatchReady(inst, eps, orders) && 0 < count <= |orders| && c < count && batchSize > 0
    requires ChildRan(inst, eps, orders, count, c, child, paths, batchSize, expired)
    ensures child.pathOffsets != []
  {
    hide First, ValidProblem, Runnable, Reported, Flat, OrderRecorded, Lists, Timely, Counted, ChunkOrders;
  }

  lemma MergeStep(inst: Instance, eps: real, orders: seq<seq<nat>>, count: nat, submitted: nat, stamps: nat -> Stamp,
                  children: seq<BatchOutput>, out: BatchOutput, paths: seq<seq<nat>>, c: nat, childPaths: seq<seq<nat>>,
                  batchSize: nat, expired: nat -> bool)
    requires BatchReady(inst, eps, orders) && 0 < count <= |orders| && c < count == |children| && batchSize > 0
    requires MergedUpTo(inst, eps, orders, count, submitted, stamps, children, out, paths, c)
    requires ChildRan(inst, eps, orders, count, c, children[c], childPaths, batchSize, expired)
    ensures First(|orders|, count, c) + |children[c].completionRounds| <= |out.completionRounds|
    ensures |out.counters| == |children[c].counters| == 10 && out.pathOffsets != [] && children[c].pathOffsets != []
    ensures MergedUpTo(inst, eps, orders, count, submitted, stamps, children,
      Append(out, children[c], First(|orders|, count, c), RowFor(|orders|, count, c, submitted, stamps(c))), paths + childPaths, c + 1)
  {
    hide First, ValidProblem, Runnable, Reported, Flat, OrderRecorded, Lists, CompletedCount, OffsetsMark, Summed, Timely, RowFor, Joined;
    ChunkReady(inst, eps, orders, count, c);
    ChildExtents(inst, eps, orders, count, c, children[c], childPaths, batchSize, expired);
    ChildJoined(inst, eps, orders, count, c, out, paths, children[c], childPaths, batchSize,
                RowFor(|orders|, count, c, submitted, stamps(c)));
    JoinedExtents(inst, eps, orders, out, paths, First(|orders|, count, c));
    var next := Append(out, children[c], First(|orders|, count, c), RowFor(|orders|, count, c, submitted, stamps(c)));
    SumOn(out, children[c], First(|orders|, count, c), RowFor(|orders|, count, c, submitted, stamps(c)), children[..c]);
    assert children[..c + 1] == children[..c] + [children[c]];
    forall b | 0 <= b < c + 1 ensures SliceOf(next.statuses, |orders|, count, b, children[b].statuses) {
      if b < c {
        assert SliceOf(out.statuses, |orders|, count, b, children[b].statuses);
      }
    }
  }

  lemma JoinedExtents(inst: Instance, eps: real, orders: seq<seq<nat>>, out: BatchOutput, paths: seq<seq<nat>>, m: nat)
    requires BatchReady(inst, eps, orders) && Joined(inst, eps, orders, out, paths, m)
    ensures |out.statuses| == m <= |orders| && |out.completionRounds| == |orders| && |out.counters| == 10
    ensures out.pathOffsets != []
  {
  }

  function Blank(n: nat): BatchOutput {
    BatchOutput([0], [], [], [], [], [], [n, n, 0, 0, 1, 0, 0, 0, 1, 0], [], seq(n, i => -1), [], [])
  }

  /** The merge loop: rebase, concatenate, add up. */
  method MergeChunks(inst: Instance, eps: real, orders: seq<seq<nat>>, count: nat, batchSize: nat, children: seq<BatchOutput>,
                     submitted: nat, stamps: nat -> Stamp, ghost deadlines: nat -> nat -> bool,
                     ghost childPaths: seq<seq<seq<nat>>>)
    returns (out: BatchOutput, valid: bool, ghost paths: seq<seq<nat>>)
    requires BatchReady(inst, eps, orders) && 0 < count <= |orders| && |children| == |childPaths| == count && batchSize > 0
    requires forall c | 0 <= c < count ::
      ChildRan(inst, eps, orders, count, c, children[c], childPaths[c], batchSize, deadlines(c))
    ensures valid <==> forall c | 0 <= c < count :: !StampInvalid(stamps(c), submitted)
    ensures valid ==> MergedUpTo(inst, eps, orders, count, submitted, stamps, children, out, paths, count)
  {
    hide ChildRan, First, MergedUpTo, Append, StampInvalid, BatchReady;
    var n := |orders|;
    out, valid, paths := Blank(n), true, [];
    ChunksAdjacent(n, count, 0);
    BlankMerged(inst, eps, orders, count, submitted, stamps, children);
    for c := 0 to count
      invariant valid && MergedUpTo(inst, eps, orders, count, submitted, stamps, children, out, paths, c)
      invariant forall b | 0 <= b < c :: !StampInvalid(stamps(b), submitted)
    {
      var first, last, child, stamp := First(n, count, c), First(n, count, c + 1), children[c], stamps(c);
      ChildExtents(inst, eps, orders, count, c, child, childPaths[c], batchSize, deadlines(c));
      if |child.statuses| != last - first || |child.completionRounds| != |child.statuses| || StampInvalid(stamp, submitted) {
        return out, false, paths;
      }
      MergeStep(inst, eps, orders, count, submitted, stamps, children, out, paths, c, childPaths[c], batchSize, deadlines(c));
      out := Append(out, child, first, RowFor(n, count, c, submitted, stamp));
      paths := paths + childPaths[c];
    }
  }

  lemma BlankMerged(inst: Instance, eps: real, orders: seq<seq<nat>>, count: nat, submitted: nat, stamps: nat -> Stamp, children: seq<BatchOutput>)
    requires BatchReady(inst, eps, orders) && 0 < count && First(|orders|, count, 0) == 0
    ensures MergedUpTo(inst, eps, orders, count, submitted, stamps, children, Blank(|orders|), [], 0)
  {
    hide ValidProblem, Runnable, First;
    var paths: seq<seq<nat>> := [];
    assert Flat(paths) == [] && paths[..0] == [];
  }

  /** The chunks in the order they finished, their routes in the order each chunk completed them. */
  method PhysicalOrder(n: nat, count: nat, children: seq<BatchOutput>, stamps: nat -> Stamp, ghost statuses: seq<Status>)
    returns (order: seq<nat>)
    requires 0 < count <= n == |statuses| && |children| == count
    requires forall c | 0 <= c < count :: Lists(children[c].completionOrder, children[c].statuses)
    requires forall c | 0 <= c < count :: SliceOf(statuses, n, count, c, children[c].statuses)
    ensures Lists(order, statuses)
    ensures InFinishOrder(order, n, count, stamps)
  {
    hide First, Lists, PhysicalSoFar, InFinishOrder, Ranked, SortedByKey, SliceOf;
    var finished: seq<int> := seq(count, c requires 0 <= c < count => stamps(c).finished);
    assert forall c: nat | c < count :: finished[c] == stamps(c).finished;
    var chunks := SortedByKey(finished, count, 0);
    SortedRanked(finished, count, 0);
    ChunksListed(finished, count, chunks);
    order := [];
    PhysicalStart(chunks, count, statuses, stamps);
    for k := 0 to |chunks|
      invariant PhysicalSoFar(order, chunks, k, count, statuses) && InFinishOrder(order, n, count, stamps)
    {
      var c := chunks[k];
      SliceBounds(statuses, n, count, c, children[c].statuses);
      PhysicalStep(order, chunks, k, count, statuses, children[c]);
      FinishStep(order, chunks, k, count, statuses, children[c], finished, stamps);
      order := order + Shifted(children[c].completionOrder, First(n, count, c));
    }
    PhysicalComplete(order, chunks, count, statuses);
  }

  lemma SliceBounds(statuses: seq<Status>, n: nat, count: nat, c: nat, part: seq<Status>)
    requires 0 < count && SliceOf(statuses, n, count, c, part)
    ensures First(n, count, c) <= First(n, count, c + 1) <= |statuses|
    ensures part == statuses[First(n, count, c)..First(n, count, c + 1)]
  {
  }

  lemma ChunksListed(finished: seq<int>, count: nat, chunks: seq<nat>)
    requires |finished| == count && (forall c | 0 <= c < count :: finished[c] >= 0) && chunks == SortedByKey(finished, count, 0)
    requires Ranked(chunks, finished)
    ensures Distinct(chunks) && (forall i | 0 <= i < |chunks| :: chunks[i] < count) && forall c: nat | c < count :: c in chunks
  {
    assert forall i | 0 <= i < |chunks| :: chunks[i] in chunks;
    forall i, j | 0 <= i < j < |chunks| ensures chunks[i] != chunks[j] { assert Earlier(finished, chunks[i], chunks[j]); }
  }

  lemma PhysicalStart(chunks: seq<nat>, count: nat, statuses: seq<Status>, stamps: nat -> Stamp)
    requires 0 < count
    ensures PhysicalSoFar([], chunks, 0, count, statuses) && InFinishOrder([], |statuses|, count, stamps)
  {
  }

  lemma FinishStep(order: seq<nat>, chunks: seq<nat>, k: nat, count: nat, statuses: seq<Status>, child: BatchOutput,
                   finished: seq<int>, stamps: nat -> Stamp)
    requires 0 < count <= |statuses| && k < |chunks| && forall i | 0 <= i < |chunks| :: chunks[i] < count
    requires PhysicalSoFar(order, chunks, k, count, statuses) && InFinishOrder(order, |statuses|, count, stamps)
    requires Lists(child.completionOrder, child.statuses)
    requires First(|statuses|, count, chunks[k]) <= First(|statuses|, count, chunks[k] + 1) <= |statuses|
    requires child.statuses == statuses[First(|statuses|, count, chunks[k])..First(|statuses|, count, chunks[k] + 1)]
    requires Ranked(chunks, finished) && |finished| == count && forall c: nat | c < count :: finished[c] == stamps(c).finished
    ensures InFinishOrder(order + Shifted(child.completionOrder, First(|statuses|, count, chunks[k])), |statuses|, count, stamps)
  {
    hide First, Distinct, Shifted, SortedByKey;
    var n := |statuses|;
    var more := Shifted(child.completionOrder, First(n, count, chunks[k]));
    var next := order + more;
    ShiftedLists(child.completionOrder, child.statuses, First(n, count, chunks[k]), statuses, First(n, count, chunks[k] + 1));
    assert forall j | 0 <= j < |more| :: more[j] in more && InChunk(n, count, chunks[k], more[j]);
    forall i, j, a: nat, b: nat | 0 <= i < j < |next| && InChunk(n, count, a, next[i]) && InChunk(n, count, b, next[j]) && a < count && b < count
      ensures stamps(a).finished <= stamps(b).finished
    {
      if j >= |order| {
        assert next[j] == more[j - |order|];
        InOneChunk(n, count, next[j], b, chunks[k]);
        if i < |order| {
          assert order[i] in order;
          var l :| 0 <= l < k && InChunk(n, count, chunks[l], order[i]);
          InOneChunk(n, count, next[i], a, chunks[l]);
          assert Earlier(finished, chunks[l], chunks[k]);
        } else {
          assert next[i] == more[i - |order|];
          InOneChunk(n, count, next[i], a, chunks[k]);
        }
      }
    }
  }

  /** Routes of different chunks stand in the order in which the chunks finished. */
  ghost predicate InFinishOrder(order: seq<nat>, n: nat, count: nat, stamps: nat -> Stamp)
    requires count > 0
  {
    forall i, j, a: nat, b: nat | 0 <= i < j < |order| && InChunk(n, count, a, order[i]) && InChunk(n, count, b, order[j])
      && a < count && b < count :: stamps(a).finished <= stamps(b).finished
  }

  /** Splitting, searching and merging.  The result reports every route as one whole batch would, passes the full
      output check under all deadlines, and interrupts nothing if no deadline passes. */
  method RunExactChargingParallel(inst: Instance, eps: real, orders: seq<seq<nat>>, threads: nat, batchSize: nat, schedule: seq<nat>,
                                  submitted: nat, stamps: nat -> Stamp, deadlines: nat -> nat -> bool)
    returns (r: ParallelResult, ghost paths: seq<seq<nat>>, ghost parts: seq<BatchOutput>)
    requires WellFormed(inst) && BatchReady(inst, eps, orders) && batchSize > 0 && forall c: nat :: Monotone(deadlines(c))
    requires Executes(schedule, ChunkCount(|orders|, threads))
    requires threads > 0 ==> forall c | 0 <= c < ChunkCount(|orders|, threads) ::
      ChunkEnds(inst, eps, orders, ChunkCount(|orders|, threads), c, deadlines(c))
    ensures r == Failed(EmptyRequest) <==> orders == []
    ensures r == Failed(PoolDisabled) <==> orders != [] && threads == 0
    ensures r == Failed(ChildReceiptInvalid) <==>
      orders != [] && threads > 0 && exists c | 0 <= c < ChunkCount(|orders|, threads) :: StampInvalid(stamps(c), submitted)
    ensures r.Merged? ==> Reports(inst, eps, orders, r.output, paths) && Counted(r.output, |orders|, batchSize)
    ensures r.Merged? ==> ValidOutput(inst, orders, r.output, batchSize)
    ensures r.Merged? ==> InFinishOrder(r.output.physicalOrder, |orders|, ChunkCount(|orders|, threads), stamps)
    ensures r.Merged? ==> TimelyParts(inst, eps, orders, ChunkCount(|orders|, threads), batchSize, deadlines, r.output, parts)
    ensures r.Merged? && (forall c: nat, i: nat :: !deadlines(c)(i)) ==>
      forall i | 0 <= i < |orders| :: !r.output.statuses[i].InterruptedStatus?
  {
    hide TimelyParts, ChildRan, First, MergedUpTo, StampInvalid, BatchReady, InFinishOrder, ChunkEnds, Monotone, Lists, SliceOf, ValidOutput, Reports,
         Counted, SortedByKey, Metric;
    paths, parts := [], [];
    if orders == [] {
      return Failed(EmptyRequest), paths, parts;
    }
    if threads == 0 {
      return Failed(PoolDisabled), paths, parts;
    }
    var n, count := |orders|, ChunkCount(|orders|, threads);
    var children, childPaths := RunChunks(inst, eps, orders, count, batchSize, schedule, deadlines);
    var out, valid;
    out, valid, paths := MergeChunks(inst, eps, orders, count, batchSize, children, submitted, stamps, deadlines, childPaths);
    if !valid {
      return Failed(ChildReceiptInvalid), paths, parts;
    }
    parts := children;
    forall c | 0 <= c < count ensures Lists(children[c].completionOrder, children[c].statuses)
      && |children[c].counters| == 10 && children[c].counters[9] == batchSize
    {
      ChildExtents(inst, eps, orders, count, c, children[c], childPaths[c], batchSize, deadlines(c));
    }
    MergedShape(inst, eps, orders, count, submitted, stamps, children, out, paths);
    ghost var merged := out;
    out := out.(counters := out.counters[9 := children[0].counters[9]]);
    out := out.(completionOrder := SortedByKey(out.completionRounds, n, 0));
    var physical := PhysicalOrder(n, count, children, stamps, out.statuses);
    out := out.(physicalOrder := physical);
    MergeReports(inst, eps, orders, count, submitted, stamps, children, merged, out, paths, batchSize);
    NoneInterrupted(inst, eps, orders, count, children, childPaths, batchSize, deadlines, out.statuses);
    PartsOnTime(inst, eps, orders, count, submitted, stamps, children, childPaths, merged, paths, batchSize, deadlines, out);
    return Merged(out), paths, parts;
  }

  /** The output is put together from parts, each of which interrupts exactly the routes its own deadline cuts off. */
  ghost predicate TimelyParts(inst: Instance, eps: real, orders: seq<seq<nat>>, count: nat, size: nat, deadlines: nat -> nat -> bool,
                              out: BatchOutput, parts: seq<BatchOutput>)
    requires BatchReady(inst, eps, orders) && 0 < count <= |orders| && size > 0
  {
    && |parts| == count && Summed(out, parts)
    && (forall c | 0 <= c < count ::
          TimelyPart(inst, eps, orders, count, c, size, deadlines(c), parts[c])
          && SliceOf(out.statuses, |orders|, count, c, parts[c].statuses))
  }

  ghost predicate TimelyPart(inst: Instance, eps: real, orders: seq<seq<nat>>, count: nat, c: nat, size: nat, expired: nat -> bool,
                             part: BatchOutput)
    requires BatchReady(inst, eps, orders) && 0 < count <= |orders| && c < count && size > 0
  {
    ChunkReady(inst, eps, orders, count, c);
    Timely(inst, eps, ChunkOrders(orders, count, c), size, expired, part)
  }

  lemma PartsOnTime(inst: Instance, eps: real, orders: seq<seq<nat>>, count: nat, submitted: nat, stamps: nat -> Stamp,
                    children: seq<BatchOutput>, childPaths: seq<seq<seq<nat>>>, merged: BatchOutput, paths: seq<seq<nat>>, batchSize: nat,
                    deadlines: nat -> nat -> bool, out: BatchOutput)
    requires BatchReady(inst, eps, orders) && 0 < count <= |orders| && |children| == |childPaths| == count && batchSize > 0
    requires forall c | 0 <= c < count :: ChildRan(inst, eps, orders, count, c, children[c], childPaths[c], batchSize, deadlines(c))
    requires MergedUpTo(inst, eps, orders, count, submitted, stamps, children, merged, paths, count)
    requires |merged.counters| == 10 && out.statuses == merged.statuses && out.counters == merged.counters[9 := batchSize]
    ensures TimelyParts(inst, eps, orders, count, batchSize, deadlines, out, children)
  {
    hide First, Joined, ChildRan, Timely, SliceOf, SumOf, Runnable, ValidProblem;
    assert children[..count] == children;
    forall c | 0 <= c < count
      ensures TimelyPart(inst, eps, orders, count, c, batchSize, deadlines(c), children[c])
    {
      ChildOnTime(inst, eps, orders, count, c, children[c], childPaths[c], batchSize, deadlines(c));
    }
  }

  lemma ChildOnTime(inst: Instance, eps: real, orders: seq<seq<nat>>, count: nat, c: nat, child: BatchOutput, paths: seq<seq<nat>>,
                    batchSize: nat, expired: nat -> bool)
    requires BatchReady(inst, eps, orders) && 0 < count <= |orders| && c < count && batchSize > 0
    requires ChildRan(inst, eps, orders, count, c, child, paths, batchSize, expired)
    ensures TimelyPart(inst, eps, orders, count, c, batchSize, expired, child)
  {
    hide Timely, Reports, Counted, ChunkOrders, ValidProblem;
  }

  function ChunkCount(n: nat, threads: nat): nat {
    if threads < n then threads else n
  }

  /** The pool runs every chunk, in whatever order. */
  ghost predicate Executes(schedule: seq<nat>, count: nat) {
    (forall i | 0 <= i < |schedule| :: schedule[i] < count) && forall c: nat | c < count :: c in schedule
  }

  lemma MergedShape(inst: Instance, eps: real, orders: seq<seq<nat>>, count: nat, submitted: nat, stamps: nat -> Stamp,
                    children: seq<BatchOutput>, out: BatchOutput, paths: seq<seq<nat>>)
    requires BatchReady(inst, eps, orders) && 0 < count <= |orders| && count == |children|
    requires MergedUpTo(inst, eps, orders, count, submitted, stamps, children, out, paths, count)
    ensures |out.statuses| == |out.completionRounds| == |orders| && |out.counters| == 10
    ensures forall c | 0 <= c < count :: SliceOf(out.statuses, |orders|, count, c, children[c].statuses)
  {
    hide First, OffsetsMark, Flat, Reported, CompletedCount;
    ChunksAdjacent(|orders|, count, 0);
  }

  /** The finished output reports and counts all routes and passes the check. */
  lemma MergeReports(inst: Instance, eps: real, orders: seq<seq<nat>>, count: nat, submitted: nat, stamps: nat -> Stamp,
                     children: seq<BatchOutput>, merged: BatchOutput, out: BatchOutput, paths: seq<seq<nat>>, batchSize: nat)
    requires WellFormed(inst) && BatchReady(inst, eps, orders) && 0 < count <= |orders| && count == |children| && batchSize > 0
    requires MergedUpTo(inst, eps, orders, count, submitted, stamps, children, merged, paths, count)
    requires forall c | 0 <= c < count :: !StampInvalid(stamps(c), submitted)
    requires |merged.counters| == 10 && |merged.completionRounds| == |orders|
    requires out == merged.(counters := merged.counters[9 := batchSize], physicalOrder := out.physicalOrder,
                            completionOrder := SortedByKey(merged.completionRounds, |orders|, 0))
    requires Lists(out.physicalOrder, out.statuses)
    ensures Reports(inst, eps, orders, out, paths) && Counted(out, |orders|, batchSize) && ValidOutput(inst, orders, out, batchSize)
  {
    hide First, OffsetsMark, Flat, Reported, CompletedCount, SortedByKey, OrderRecorded, ValidProblem, Runnable, ValidOutput, Metric,
         Lists, PhysicalAgrees, StampInvalid;
    ChunksAdjacent(|orders|, count, 0);
    OrderRebuilt(inst, eps, orders, merged, paths);
    CompletedAreListed(out.completionOrder, out.statuses);
    CompletedAreListed(out.physicalOrder, out.statuses);
    TasksAgree(|orders|, count, submitted, stamps, out);
    ReportedIsValid(inst, eps, orders, batchSize, out, paths);
  }

  lemma TasksAgree(n: nat, count: nat, submitted: nat, stamps: nat -> Stamp, out: BatchOutput)
    requires 0 < count <= n && |out.statuses| == n && |out.physicalOrder| == |out.completionOrder|
    requires Lists(out.physicalOrder, out.statuses) && |out.tasks| == count
    requires forall c | 0 <= c < count :: !StampInvalid(stamps(c), submitted)
    requires forall c | 0 <= c < count :: out.tasks[c] == RowFor(n, count, c, submitted, stamps(c))
    ensures PhysicalAgrees(out, n)
  {
    hide First, Size, Distinct;
    ChunksAdjacent(n, count, 0);
    forall t | 0 <= t < count ensures TaskAgrees(out.tasks, t, n) {
      ChunksAdjacent(n, count, t);
      FirstMonotone(n, count, t + 1, count);
      assert !StampInvalid(stamps(t), submitted);
      assert out.tasks[t] == RowFor(n, count, t, submitted, stamps(t));
      assert t > 0 ==> out.tasks[t - 1] == RowFor(n, count, t - 1, submitted, stamps(t - 1));
    }
    assert out.tasks[count - 1] == RowFor(n, count, count - 1, submitted, stamps(count - 1));
    assert forall i | 0 <= i < |out.physicalOrder| :: out.physicalOrder[i] in out.physicalOrder;
  }

  lemma NoneInterrupted(inst: Instance, eps: real, orders: seq<seq<nat>>, count: nat, children: seq<BatchOutput>,
                        childPaths: seq<seq<seq<nat>>>, batchSize: nat, deadlines: nat -> nat -> bool, statuses: seq<Status>)
    requires BatchReady(inst, eps, orders) && 0 < count <= |orders| && |children| == |childPaths| == count && batchSize > 0
    requires forall c | 0 <= c < count :: ChildRan(inst, eps, orders, count, c, children[c], childPaths[c], batchSize, deadlines(c))
    requires |statuses| == |orders| && forall c | 0 <= c < count :: SliceOf(statuses, |orders|, count, c, children[c].statuses)
    ensures (forall c: nat, i: nat :: !deadlines(c)(i)) ==> forall r | 0 <= r < |orders| :: !statuses[r].InterruptedStatus?
  {
    hide First, ChildRan, Lists;
    if forall c: nat, i: nat :: !deadlines(c)(i) {
      ChunksAdjacent(|orders|, count, 0);
      forall r | 0 <= r < |orders| ensures !statuses[r].InterruptedStatus? {
        var c := InSomeChunk(|orders|, count, count, r);
        ChildExtents(inst, eps, orders, count, c, children[c], childPaths[c], batchSize, deadlines(c));
        assert SliceOf(statuses, |orders|, count, c, children[c].statuses);
        assert children[c].statuses[r - First(|orders|, count, c)] == statuses[r];
      }
    }
  }

  // ---- merged and whole are the same -------------------------------------------------------------------------

  /** Any two uninterrupted outputs for the same orders, whole or merged, with any chunking, batch size or finishing
      order, agree in every field a caller reads. */
  lemma MergedEqualsWhole(inst: Instance, eps: real, orders: seq<seq<nat>>, a: BatchOutput, pathsA: seq<seq<nat>>, b: BatchOutput, pathsB: seq<seq<nat>>)
    requires BatchReady(inst, eps, orders) && Reports(inst, eps, orders, a, pathsA) && Reports(inst, eps, orders, b, pathsB)
    requires forall r | 0 <= r < |orders| :: !a.statuses[r].InterruptedStatus? && !b.statuses[r].InterruptedStatus?
    ensures pathsA == pathsB && a.pathOffsets == b.pathOffsets && a.pathIndices == b.pathIndices
    ensures a.statuses == b.statuses && a.reasons == b.reasons && a.metrics == b.metrics
    ensures a.labelCounters == b.labelCounters && a.completionRounds == b.completionRounds
    ensures a.completionOrder == b.completionOrder
  {
    hide FinalOf, RoundsOf, RowOf, Flat, OffsetsMark, ValidProblem, Runnable, SortedByKey, OrderRecorded;
    assert pathsA == pathsB && a.completionRounds == b.completionRounds;
    OffsetsOnce(a.pathOffsets, b.pathOffsets, pathsA);
    RecordedIsSorted(a.completionOrder, a.completionRounds);
    RecordedIsSorted(b.completionOrder, b.completionRounds);
  }
}
