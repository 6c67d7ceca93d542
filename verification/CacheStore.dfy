/** The solve-local cache: transactions that publish one generation at a time. */
module CacheStore {
  import opened Options
  import opened RuntimeContracts

  datatype CommitReceipt = CommitReceipt(before: nat, after: nat, writes: nat)

  datatype CommitResult = Published(receipt: CommitReceipt) | Stale | PublicationFailed | AlreadyClosed

  /** The exceptions of a commit that publishes nothing. */
  datatype Refusal = RefusedStale | RefusedCache | RefusedOther(fault: Fault)

  /** What a store does with a commit.  The store below publishes, closes and acknowledges correctly unless its hook
      raises; a replacement may fail to do any of the three, refuse for another reason, or lose its snapshot. */
  datatype Backend = Backend(refuses: Option<Refusal>, publishes: bool, closes: bool, receiptGood: bool, snapshotFails: bool)

  /** What the owner can tell about a commit afterwards. */
  datatype Verdict = Confirmed | Repaired | OutcomeUnknown | Unverified

  datatype Acknowledgement = Acknowledged(receipt: CommitReceipt) | Refused(refusal: Refusal)

  const HONEST := Backend(None, true, true, true, false)

  class Txn<V> {
    const expected: nat
    var staged: map<string, V>
    var closed: bool

    constructor (expected: nat)
      ensures this.expected == expected && staged == map[] && !closed
    {
      this.expected := expected;
      staged, closed := map[], false;
    }
  }

  class Store<V(==)> {
    var values: map<string, V>
    var generation: nat

    constructor ()
      ensures values == map[] && generation == 0
    {
      values, generation := map[], 0;
    }

    method Begin() returns (t: Txn<V>)
      ensures fresh(t) && t.expected == generation && t.staged == map[] && !t.closed
    {
      t := new Txn(generation);
    }

    function Lookup(keys: seq<string>): (found: seq<Option<V>>)
      reads this
      ensures |found| == |keys|
      ensures forall i | 0 <= i < |keys| :: found[i] == if keys[i] in values then Some(values[keys[i]]) else None
    {
      seq(|keys|, i requires 0 <= i < |keys| reads this => if keys[i] in values then Some(values[keys[i]]) else None)
    }

    /** Entries wait in the transaction; nothing becomes visible. */
    method Stage(t: Txn<V>, entries: map<string, V>) returns (ok: bool)
      modifies t
      ensures ok <==> !old(t.closed) && "" !in entries
      ensures t.staged == if ok then old(t.staged) + entries else old(t.staged)
      ensures t.closed == old(t.closed)
    {
      if t.closed || "" in entries {
        return false;
      }
      t.staged := t.staged + entries;
      ok := true;
    }

    /** All staged entries and the next generation become visible together, or nothing does. */
    method Commit(t: Txn<V>, hookRaises: bool) returns (r: CommitResult)
      modifies this, t
      ensures r == if old(t.closed) then AlreadyClosed
                   else if t.expected != old(generation) then Stale
                   else if hookRaises then PublicationFailed
                   else CommitResult.Published(CommitReceipt(old(generation), old(generation) + 1, |old(t.staged)|))
      ensures t.closed && (r.AlreadyClosed? || t.staged == map[])
      ensures r.Published? ==> values == old(values) + old(t.staged) && generation == old(generation) + 1
      ensures !r.Published? ==> values == old(values) && generation == old(generation)
    {
      if t.closed {
        return AlreadyClosed;
      }
      if t.expected != generation {
        t.closed, t.staged := true, map[];
        return Stale;
      }
      if hookRaises {
        t.closed, t.staged := true, map[];
        return PublicationFailed;
      }
      var before := generation;
      values := values + t.staged;
      generation := generation + 1;
      var writes := |t.staged|;
      t.closed, t.staged := true, map[];
      return CommitResult.Published(CommitReceipt(before, generation, writes));
    }

    method Rollback(t: Txn<V>)
      modifies t
      ensures t.closed && t.staged == if old(t.closed) then old(t.staged) else map[]
    {
      if t.closed {
        return;
      }
      t.closed, t.staged := true, map[];
    }

    /** A commit through a store that need not keep its contract. */
    method CommitBy(t: Txn<V>, backend: Backend) returns (r: Acknowledgement)
      requires !t.closed && t.expected == generation
      modifies this, t
      ensures r.Refused? <==> backend.refuses.Some?
      ensures r.Refused? ==> backend.refuses == Some(r.refusal) && values == old(values) && generation == old(generation)
      ensures r.Acknowledged? ==> t.closed == backend.closes
      ensures r.Acknowledged? ==>
        (r.receipt == CommitReceipt(old(generation), old(generation) + 1, |old(t.staged)|) <==> backend.receiptGood)
      ensures r.Acknowledged? && backend.publishes ==> values == old(values) + old(t.staged) && generation == old(generation) + 1
      ensures r.Acknowledged? && !backend.publishes ==> values == old(values) && generation == old(generation)
    {
      if backend.refuses == Some(RefusedCache) || (backend.refuses.None? && backend.publishes && backend.closes && backend.receiptGood) {
        var done := Commit(t, backend.refuses.Some?);
        return if done.Published? then Acknowledged(done.receipt) else Refused(RefusedCache);
      }
      if backend.refuses.Some? {
        t.closed := t.closed || backend.refuses.value.RefusedStale?;
        return Refused(backend.refuses.value);
      }
      var writes, before := |t.staged|, generation;
      if backend.publishes {
        values := values + t.staged;
        generation := generation + 1;
      }
      if backend.closes {
        t.closed, t.staged := true, map[];
      }
      return Acknowledged(CommitReceipt(before, if backend.receiptGood then before + 1 else before, writes));
    }

    /** What the owner concludes from the receipt, the transaction and a snapshot of the store. */
    method ValidateReceipt(t: Txn<V>, receipt: CommitReceipt, staged: map<string, V>, snapshotFails: bool) returns (v: Verdict)
      modifies t
      ensures v == VerdictOf(receipt == CommitReceipt(t.expected, t.expected + 1, |staged|), old(t.closed), snapshotFails,
                             generation == t.expected + 1 && Holds(values, staged))
      ensures v.Repaired? ==> t.closed && t.staged == map[]
      ensures !v.Repaired? ==> t.closed == old(t.closed) && t.staged == old(t.staged)
    {
      var valid := receipt.before == t.expected && receipt.after == t.expected + 1 && receipt.writes == |staged|;
      if snapshotFails {
        return if t.closed then OutcomeUnknown else Unverified;
      }
      var matches := generation == t.expected + 1 && Holds(values, staged);
      if valid && t.closed && matches {
        return Confirmed;
      }
      if matches {
        t.closed, t.staged := true, map[];
        return Repaired;
      }
      return if t.closed then OutcomeUnknown else Unverified;
    }
  }

  predicate Holds<V(==)>(values: map<string, V>, entries: map<string, V>) {
    forall k | k in entries :: k in values && values[k] == entries[k]
  }

  function VerdictOf(receiptGood: bool, closed: bool, snapshotFails: bool, matches: bool): Verdict {
    if !snapshotFails && matches then (if receiptGood && closed then Confirmed else Repaired)
    else if closed then OutcomeUnknown else Unverified
  }

  /** The verdict on an acknowledged commit, by what the store did. */
  function VerdictFor(backend: Backend): Verdict {
    VerdictOf(backend.receiptGood, backend.closes, backend.snapshotFails, backend.publishes)
  }
}
