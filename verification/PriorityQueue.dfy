/** The binary heap of both searches, seen as the multiset it holds: `pop` takes the entry with the
    least (distance, elapsed time, negated progress, serial).  Serials never repeat, so this is one entry. */
module PriorityQueue {
  datatype Priority = Priority(distance: real, time: real, negProgress: int, serial: nat)

  datatype Entry<T> = Entry(priority: Priority, item: T)

  predicate Before(a: Priority, b: Priority) {
    a.distance < b.distance || (a.distance == b.distance && (
      a.time < b.time || (a.time == b.time && (
        a.negProgress < b.negProgress || (a.negProgress == b.negProgress && a.serial < b.serial)))))
  }

  function MinIndex<T>(q: seq<Entry<T>>): (i: nat)
    requires q != []
    ensures i < |q|
    ensures forall j | 0 <= j < |q| :: !Before(q[j].priority, q[i].priority)
  {
    if |q| == 1 then 0
    else
      var i := MinIndex(q[..|q| - 1]);
      assert forall j | 0 <= j < |q| - 1 :: q[..|q| - 1][j] == q[j];
      if Before(q[|q| - 1].priority, q[i].priority) then |q| - 1 else i
  }

  function Without<T>(q: seq<T>, i: nat): seq<T>
    requires i < |q|
  {
    q[..i] + q[i + 1..]
  }

  /** Two queues whose entries are ordered alike pop at the same place. */
  lemma {:induction false} SameMinIndex<T, U>(q: seq<Entry<T>>, r: seq<Entry<U>>)
    requires q != [] && |q| == |r|
    requires forall i, j | 0 <= i < |q| && 0 <= j < |q| ::
      Before(q[i].priority, q[j].priority) <==> Before(r[i].priority, r[j].priority)
    ensures MinIndex(q) == MinIndex(r)
  {
    if |q| > 1 {
      SameMinIndex(q[..|q| - 1], r[..|q| - 1]);
    }
  }
}
