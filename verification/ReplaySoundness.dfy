/** What an accepted trace is: a stuttering run of a model with one owner and one kind of visible step, the commit. */
module ReplaySoundness {
  import opened SemanticTrace

  lemma AtEvent(events: seq<Event>, i: nat)
    requires WellFormedTrace(events) && 0 < i < |events| - 1
    ensures EventOk(events, i)
  {
    hide EventOk, IsDigest;
    var prefix, n := events[..|events| - 1], |events| - 1;
    assert events == prefix + [events[n]];
    EventStays(prefix, [events[n]], i);
  }

  // ---- the aggregate model ---------------------------------------------------------------------------------

  /** All that is visible: the state, by its digest, the cache generation and the published work. */
  datatype Aggregate = Aggregate(digest: Field<string>, generation: nat, work: int)

  function View(events: seq<Event>, n: nat): Aggregate
    requires n <= |events|
  {
    Aggregate(VisibleDigest(events, n), Commits(events, n), PublishedWork(events, n))
  }

  /** The one step of the model: state, generation and work move together. */
  ghost predicate AtomicCommit(a: Aggregate, b: Aggregate) {
    && b.digest.Value? && IsDigest(b.digest.value) && b.generation == a.generation + 1 && b.work >= a.work
  }

  /** Every event of an accepted trace stutters or is one atomic commit, and only COMMITTED events commit. */
  lemma StutteringRefinement(events: seq<Event>, n: nat)
    requires WellFormedTrace(events) && 0 < n < |events|
    ensures View(events, 1) == Aggregate(events[0].stateDigest, 0, 0)
    ensures if IsTxn(events[n], COMMITTED) then
              AtomicCommit(View(events, n), View(events, n + 1)) && View(events, n + 1).digest == events[n].stateDigest
              && events[n].generation == Value(View(events, n + 1).generation)
            else View(events, n + 1) == View(events, n)
  {
    hide IsDigest, FreshTxn, UniqueKeys;
    if n < |events| - 1 { AtEvent(events, n); }
    assert events[..|events| - 1][0] == events[0];
    assert Commits(events, 1) == 0 by { assert Commits(events, 0) == 0; }
  }

  /** The visible work never falls and the generation counts the commits, over the whole run. */
  lemma {:induction false} LedgerMonotone(events: seq<Event>, m: nat, n: nat)
    requires WellFormedTrace(events) && 0 < m <= n <= |events|
    ensures View(events, m).work <= View(events, n).work && View(events, m).generation <= View(events, n).generation
    ensures View(events, n).generation == Commits(events, n)
    decreases n - m
  {
    hide IsDigest;
    if m < n {
      StutteringRefinement(events, n - 1);
      LedgerMonotone(events, m, n - 1);
    }
  }

  // ---- one owner -------------------------------------------------------------------------------------------

  predicate Of(e: Event, id: string) { e.name.Transaction? && e.txn == Value(id) }

  /** The events of a transaction stand next to each other: nothing else happens while it is open. */
  lemma {:induction false} OneOwner(events: seq<Event>, i: nat, k: nat, id: string)
    requires WellFormedTrace(events) && 0 < i <= k < |events| - 1 && Of(events[i], id) && Of(events[k], id)
    ensures forall m | i <= m <= k :: Of(events[m], id)
    decreases k
  {
    if i < k {
      AtEvent(events, k);
      OneOwner(events, i, k - 1, id);
    }
  }

  /** An open transaction goes on at the very next event; no trace ends with one. */
  lemma OpenGoesOn(events: seq<Event>, i: nat)
    requires WellFormedTrace(events) && 0 < i < |events| - 1
    requires events[i].name.Transaction? && events[i].phase.Value? && !Terminal(events[i].phase.value)
    ensures i + 1 < |events| - 1 && events[i + 1].name.Transaction? && events[i + 1].txn == events[i].txn
    ensures events[i + 1].phase.Value? && Allowed(events[i].phase.value, events[i + 1].phase.value)
    ensures events[i + 1].keys == events[i].keys && events[i + 1].snapshot == events[i].snapshot
  {
    hide FreshTxn, IsDigest, UniqueKeys, Commits, PublishedWork;
    AtEvent(events, i);
    assert i + 1 < |events| - 1;
    AtEvent(events, i + 1);
  }

  predicate SameTxn(a: Event, b: Event) {
    a.name.Transaction? && a.txn == b.txn && a.keys == b.keys && a.snapshot == b.snapshot
  }

  /** Before a phase stands the phase that leads to it, of the same transaction, or for PREPARED the screening. */
  lemma PhaseBefore(events: seq<Event>, i: nat, p: Phase)
    requires WellFormedTrace(events) && 0 < i < |events| - 1 && IsTxn(events[i], p)
    ensures p.PREPARED? ==>
      (events[i].keys.Value? && UniqueKeys(events[i].keys.value) && GoodKeys(events[i].keys.value)
       && events[i - 1].name.Screening? && events[i - 1].admitted == Value(|events[i].keys.value|))
    ensures !p.PREPARED? ==>
      (i > 1 && SameTxn(events[i - 1], events[i]) && events[i - 1].phase.Value? && Allowed(events[i - 1].phase.value, p))
    ensures events[i].snapshot == VisibleDigest(events, i)
  {
    hide IsDigest, PublishedWork, Commits;
    AtEvent(events, i);
    if !p.PREPARED? {
      assert events[..|events| - 1][0] == events[0];
      AtEvent(events, i - 1);
    }
  }

  /** Each commit closes a block of five neighbouring events of one transaction, all four private phases in order on
      the snapshot visible throughout, opened on exactly the set just admitted. */
  lemma CommitBlock(events: seq<Event>, j: nat)
    requires WellFormedTrace(events) && 0 < j < |events| - 1 && IsTxn(events[j], COMMITTED)
    ensures j > 5
    ensures IsTxn(events[j - 4], PREPARED) && IsTxn(events[j - 3], RESERVED) && IsTxn(events[j - 2], EVALUATING)
      && IsTxn(events[j - 1], VALIDATED)
    ensures forall m | j - 4 <= m <= j :: SameTxn(events[m], events[j])
    ensures events[j].snapshot == VisibleDigest(events, j - 4)
    ensures events[j].keys.Value? && UniqueKeys(events[j].keys.value)
    ensures events[j - 5].name.Screening? && events[j - 5].admitted == Value(|events[j].keys.value|)
  {
    hide IsDigest, PublishedWork, Commits, WellFormedTrace, UniqueKeys, GoodKeys, VisibleDigest;
    PhaseBefore(events, j, COMMITTED);
    PhaseBefore(events, j - 1, VALIDATED);
    PhaseBefore(events, j - 2, EVALUATING);
    PhaseBefore(events, j - 3, RESERVED);
    PhaseBefore(events, j - 4, PREPARED);
    NotFirst(events);
  }

  lemma NotFirst(events: seq<Event>)
    requires WellFormedTrace(events)
    ensures events[0].name.RunOpen?
  {
    assert events[..|events| - 1][0] == events[0];
  }

  // ---- nothing else is shown ---------------------------------------------------------------------------------

  /** Only commits show a state and a generation; only interrupted transactions leave the outcome of the cache open. */
  lemma OnlyCommitsShow(events: seq<Event>, i: nat)
    requires WellFormedTrace(events) && 0 < i < |events| - 1
    ensures !IsTxn(events[i], COMMITTED) ==> events[i].stateDigest == Absent && events[i].generation == Absent
    ensures events[i].name.Transaction? && events[i].cacheOutcome != Absent ==>
      IsTxn(events[i], INTERRUPTED) && events[i].cacheOutcome == Value(UNKNOWN_OUTCOME)
    ensures events[i].name.Screening? || events[i].name.RoundTerminated? || events[i].name.Transaction?
  {
    hide IsDigest, FreshTxn, UniqueKeys, GoodKeys, Commits, PublishedWork, VisibleDigest;
    AtEvent(events, i);
  }

  /** What a screening admits is taken up by a transaction at the very next event, unless it admits nothing. */
  lemma ScreenedIsTaken(events: seq<Event>, i: nat)
    requires WellFormedTrace(events) && 0 < i < |events| - 1 && events[i].name.Screening?
    ensures events[i].admitted.Value? && events[i].admitted.value >= 0
    ensures events[i].admitted.value > 0 ==>
      (i + 1 < |events| - 1 && IsTxn(events[i + 1], PREPARED) && events[i + 1].keys.Value?
       && |events[i + 1].keys.value| == events[i].admitted.value && events[i + 1].snapshot == VisibleDigest(events, i))
    ensures events[i].admitted.value == 0 ==> i + 1 == |events| - 1 || events[i + 1].name.RoundTerminated?
  {
    hide IsDigest, FreshTxn, UniqueKeys, Commits, PublishedWork;
    AtEvent(events, i);
    if i + 1 < |events| - 1 { AtEvent(events, i + 1); }
  }
}
