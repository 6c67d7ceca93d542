/** Exact work accounting of a run, and the bounds on work that a failed transaction throws away. */
module WorkLedger {
  import opened Options

  datatype Reservation = Reservation(requested: nat, reservedBefore: nat, reservedAfter: nat, startedBefore: nat,
                                     startedAfter: nat, remainingAfter: Option<nat>, granted: bool)

  datatype LedgerFailure = NegativeCount | ExceedsReservation

  class BudgetLedger {
    const limit: Option<nat>
    var reservedUnits: nat
    var startedUnits: nat

    /** Started, reserved and remaining units always make up the limit. */
    ghost predicate Valid()
      reads this
    {
      limit.Some? ==> limit.value > 0 && startedUnits + reservedUnits <= limit.value
    }

    constructor (limit: Option<nat>)
      requires limit.Some? ==> limit.value > 0
      ensures Valid() && this.limit == limit && startedUnits == reservedUnits == 0
    {
      this.limit := limit;
      reservedUnits, startedUnits := 0, 0;
    }

    function Remaining(): (r: Option<nat>)
      requires Valid()
      reads this
      ensures r.Some? <==> limit.Some?
      ensures r.Some? ==> startedUnits + reservedUnits + r.value == limit.value
    {
      if limit.None? then None else Some(limit.value - startedUnits - reservedUnits)
    }

    method Reserve(count: nat) returns (r: Reservation)
      requires Valid()
      modifies this
      ensures Valid() && startedUnits == old(startedUnits)
      ensures r.granted <==> old(Remaining()).None? || count <= old(Remaining()).value
      ensures reservedUnits == old(reservedUnits) + if r.granted then count else 0
      ensures r == Reservation(count, old(reservedUnits), reservedUnits, startedUnits, startedUnits, Remaining(), r.granted)
    {
      var before, remaining := reservedUnits, Remaining();
      var granted := remaining.None? || count <= remaining.value;
      if granted {
        reservedUnits := reservedUnits + count;
      }
      r := Reservation(count, before, reservedUnits, startedUnits, startedUnits, Remaining(), granted);
    }

    method Start(count: int) returns (failure: Option<LedgerFailure>)
      requires Valid()
      modifies this
      ensures Valid()
      ensures failure == if count < 0 then Some(NegativeCount) else if count > old(reservedUnits) then Some(ExceedsReservation) else None
      ensures failure.None? ==> reservedUnits == old(reservedUnits) - count && startedUnits == old(startedUnits) + count
      ensures failure.Some? ==> reservedUnits == old(reservedUnits) && startedUnits == old(startedUnits)
    {
      if count < 0 {
        return Some(NegativeCount);
      }
      if count > reservedUnits {
        return Some(ExceedsReservation);
      }
      reservedUnits := reservedUnits - count;
      startedUnits := startedUnits + count;
      failure := None;
    }

    method ReleaseReserved() returns (released: nat)
      requires Valid()
      modifies this
      ensures Valid() && reservedUnits == 0 && startedUnits == old(startedUnits) && released == old(reservedUnits)
    {
      released := reservedUnits;
      reservedUnits := 0;
    }
  }

  // ---- the waste bounds ------------------------------------------------------------------------------------

  datatype WasteBound = WasteBound(discarded: nat, postBoundary: nat)

  datatype WasteAudit = Bounded(bound: WasteBound) | NegativeObservation | DiscardedTooMuch | PostBoundaryTooMuch

  function Least(a: nat, b: nat): nat { if a <= b then a else b }

  function BoundedWaste(remaining: nat, window: nat, maxPerCandidate: nat, capacity: nat): WasteBound {
    WasteBound(Least(remaining, window * maxPerCandidate), Least(capacity, window * maxPerCandidate))
  }

  function AuditWaste(remaining: nat, window: nat, maxPerCandidate: nat, capacity: nat, discarded: int, postBoundary: int): WasteAudit {
    var bound := BoundedWaste(remaining, window, maxPerCandidate, capacity);
    if discarded < 0 || postBoundary < 0 then NegativeObservation
    else if discarded > bound.discarded then DiscardedTooMuch
    else if postBoundary > bound.postBoundary then PostBoundaryTooMuch
    else Bounded(bound)
  }

  // ---- sums over the work of candidates --------------------------------------------------------------------

  function Total(work: seq<nat>): nat {
    if work == [] then 0 else Total(work[..|work| - 1]) + work[|work| - 1]
  }

  function Largest(work: seq<nat>): (m: nat)
    requires work != []
    ensures m in work && forall i | 0 <= i < |work| :: work[i] <= m
  {
    if |work| == 1 then work[0]
    else
      var front := Largest(work[..|work| - 1]);
      assert forall i | 0 <= i < |work| - 1 :: work[i] == work[..|work| - 1][i];
      if work[|work| - 1] >= front then work[|work| - 1] else front
  }

  lemma {:induction false} TotalAppend(a: seq<nat>, b: seq<nat>)
    ensures Total(a + b) == Total(a) + Total(b)
  {
    if b == [] {
      assert a + b == a;
    } else {
      assert (a + b)[..|a + b| - 1] == a + b[..|b| - 1];
      TotalAppend(a, b[..|b| - 1]);
    }
  }

  /** A sum of terms up to `m` is at most their number times `m`. */
  lemma {:induction false} TotalBound(work: seq<nat>, m: nat)
    requires forall i | 0 <= i < |work| :: work[i] <= m
    ensures Total(work) <= |work| * m
  {
    if work != [] {
      TotalBound(work[..|work| - 1], m);
      assert |work| * m == (|work| - 1) * m + m;
    }
  }

  /** The audit of a transaction that was granted its work passes: at most what was reserved was started, and what was
      still running is part of the window. */
  lemma AuditPasses(remaining: nat, work: seq<nat>, capacity: nat, discarded: nat, postBoundary: nat)
    requires work != [] && Total(work) <= remaining && discarded <= Total(work)
    requires postBoundary <= capacity && postBoundary <= Total(work)
    ensures AuditWaste(remaining, |work|, Largest(work), capacity, discarded, postBoundary).Bounded?
  {
    TotalBound(work, Largest(work));
  }

  /** And nothing more passes: the audit refuses, and says why, exactly what exceeds the remaining work, the capacity
      beyond the boundary, or the largest work of every candidate in the window. */
  lemma AuditDecides(remaining: nat, window: nat, maxPerCandidate: nat, capacity: nat, discarded: int, postBoundary: int)
    ensures var a, most := AuditWaste(remaining, window, maxPerCandidate, capacity, discarded, postBoundary), window * maxPerCandidate;
      && (a.NegativeObservation? <==> discarded < 0 || postBoundary < 0)
      && (a.DiscardedTooMuch? <==> discarded >= 0 && postBoundary >= 0 && (discarded > remaining || discarded > most))
      && (a.PostBoundaryTooMuch? <==> 0 <= discarded <= remaining && discarded <= most && postBoundary >= 0
                                      && (postBoundary > capacity || postBoundary > most))
      && (a.Bounded? ==> (a.bound.discarded == remaining || a.bound.discarded == most) && discarded <= a.bound.discarded
                         && (a.bound.postBoundary == capacity || a.bound.postBoundary == most) && postBoundary <= a.bound.postBoundary)
  {
    var most := window * maxPerCandidate;
    assert BoundedWaste(remaining, window, maxPerCandidate, capacity) == WasteBound(Least(remaining, most), Least(capacity, most));
  }
}
