/** The independent replay of a semantic trace: one pass with a transaction table, an owner and a pending set. */
module RefinementReplay {
  import opened Options
  import opened SemanticTrace

  datatype Receipt = Receipt(committed: nat, aborted: nat, interrupted: nat, finalDigest: string, finalGeneration: nat,
                             stuttering: nat, committedKeyDigests: seq<string>, prefixSafety: bool)

  /** The variables of the pass. */
  datatype Replay = Replay(visible: string, generation: nat, phases: map<string, Phase>, keysOf: map<string, seq<string>>,
                           active: Option<string>, pending: Option<nat>, committed: nat, aborted: nat, interrupted: nat,
                           stuttering: nat, committedKeyDigests: seq<string>, prefixSafety: bool, lastWork: int)

  // ---- what the receipt should say -------------------------------------------------------------------------

  function CountOf(events: seq<Event>, n: nat, p: Phase): (c: nat)
    requires n <= |events|
  {
    if n == 0 then 0 else CountOf(events, n - 1, p) + if IsTxn(events[n - 1], p) then 1 else 0
  }

  function PrivateSteps(events: seq<Event>, n: nat): nat
    requires n <= |events|
  {
    CountOf(events, n, PREPARED) + CountOf(events, n, RESERVED) + CountOf(events, n, EVALUATING) + CountOf(events, n, VALIDATED)
  }

  function CommittedKeys(events: seq<Event>, n: nat, keyDigest: seq<string> -> string): seq<string>
    requires n <= |events|
  {
    if n == 0 then []
    else if IsTxn(events[n - 1], COMMITTED) && events[n - 1].keys.Value? then
      CommittedKeys(events, n - 1, keyDigest) + [keyDigest(events[n - 1].keys.value)]
    else CommittedKeys(events, n - 1, keyDigest)
  }

  predicate OutcomesKnown(events: seq<Event>, n: nat)
    requires n <= |events|
  {
    forall i | 0 < i < n && events[i].name.Transaction? :: events[i].cacheOutcome == Absent
  }

  ghost predicate Tells(r: Receipt, events: seq<Event>, n: nat, keyDigest: seq<string> -> string)
    requires n <= |events|
  {
    && r.committed == CountOf(events, n, COMMITTED) == r.finalGeneration && r.aborted == CountOf(events, n, ABORTED)
    && r.interrupted == CountOf(events, n, INTERRUPTED) && VisibleDigest(events, n) == Value(r.finalDigest)
    && r.finalGeneration == Commits(events, n) && r.stuttering == PrivateSteps(events, n)
    && r.committedKeyDigests == CommittedKeys(events, n, keyDigest) && (r.prefixSafety <==> OutcomesKnown(events, n))
  }

  // ---- the pass --------------------------------------------------------------------------------------------

  predicate UpTo(events: seq<Event>, n: nat)
    requires n <= |events|
  {
    forall i | 0 < i < n :: EventOk(events, i)
  }

  predicate OpenTxn(e: Event) {
    e.name.Transaction? && e.txn.Value? && e.keys.Value? && e.phase.Value? && !Terminal(e.phase.value)
  }

  /** The transaction table, the owner and the pending set match the events passed so far. */
  ghost predicate Owners(events: seq<Event>, n: nat, s: Replay)
    requires 0 < n <= |events|
  {
    var last := events[n - 1];
    && (forall id :: id in s.phases <==> !FreshTxn(events, n, id))
    && (forall id | id in s.phases :: s.active == Some(id) || Terminal(s.phases[id]))
    && s.phases.Keys == s.keysOf.Keys
    && (if OpenTxn(last) then
          s.active == Some(last.txn.value) && last.txn.value in s.phases
          && s.phases[last.txn.value] == last.phase.value && s.keysOf[last.txn.value] == last.keys.value
        else s.active == None)
    && s.pending == (if last.name.Screening? && last.admitted.Value? && last.admitted.value >= 0 then Some(last.admitted.value) else None)
  }

  /** What is visible, and the counts, match. */
  ghost predicate Totals(events: seq<Event>, n: nat, s: Replay, keyDigest: seq<string> -> string)
    requires 0 < n <= |events|
  {
    && VisibleDigest(events, n) == Value(s.visible) && s.generation == s.committed == Commits(events, n)
    && s.lastWork == PublishedWork(events, n)
    && s.committed == CountOf(events, n, COMMITTED) && s.aborted == CountOf(events, n, ABORTED)
    && s.interrupted == CountOf(events, n, INTERRUPTED) && s.stuttering == PrivateSteps(events, n)
    && s.committedKeyDigests == CommittedKeys(events, n, keyDigest) && (s.prefixSafety <==> OutcomesKnown(events, n))
  }

  ghost predicate Tracks(events: seq<Event>, n: nat, s: Replay, keyDigest: seq<string> -> string)
    requires 0 < n <= |events|
  {
    Owners(events, n, s) && Totals(events, n, s, keyDigest)
  }

  /** Screening and round boundaries. */
  method ReplayBoundary(events: seq<Event>, i: nat, s: Replay, keyDigest: seq<string> -> string) returns (ok: bool, next: Replay)
    requires 0 < i < |events| && UpTo(events, i) && Tracks(events, i, s, keyDigest) && events[i].name != Transaction
    requires i == 1 ==> events[0].name.RunOpen?
    ensures ok <==> EventOk(events, i)
    ensures ok ==> Tracks(events, i + 1, next, keyDigest)
  {
    var e := events[i];
    next := s;
    assert i > 1 ==> EventOk(events, i - 1);
    if !e.name.Screening? && !e.name.RoundTerminated? {
      return false, next;
    }
    if e.stateDigest != Absent || e.generation != Absent {
      return false, next;
    }
    if e.name.Screening? {
      if s.active.Some? || s.pending.Some? || !e.admitted.Value? || e.admitted.value < 0 {
        return false, next;
      }
      return true, s.(pending := Some(e.admitted.value));
    }
    if s.active.Some? || !(s.pending == None || s.pending == Some(0)) {
      return false, next;
    }
    return true, s.(pending := None);
  }

  /** The identity part of a phase event: open a transaction on the pending set, or continue the open one. */
  method Bind(events: seq<Event>, i: nat, s: Replay) returns (ok: bool, next: Replay)
    requires 0 < i < |events| && UpTo(events, i) && Owners(events, i, s) && events[i].name.Transaction?
    requires i == 1 ==> events[0].name.RunOpen?
    requires VisibleDigest(events, i) == Value(s.visible)
    requires Identified(events[i])
    ensures ok <==> Chained(events, i) && events[i].snapshot == VisibleDigest(events, i)
    ensures next == s.(phases := next.phases, keysOf := next.keysOf, active := next.active, pending := next.pending)
    ensures ok ==> Owners(events, i + 1, next.(active := if Terminal(events[i].phase.value) then None else next.active))
  {
    hide FreshTxn, EventOk, UniqueKeys;
    var e := events[i];
    next := s;
    var id, phase, keys := e.txn.value, e.phase.value, e.keys.value;
    Before(events, i);
    if id !in s.phases {
      if s.active.Some? || !phase.PREPARED? || e.snapshot != Value(s.visible) {
        return false, next;
      }
      if !UniqueKeys(keys) || s.pending != Some(|keys|) {
        return false, next;
      }
      next := next.(keysOf := next.keysOf[id := keys], active := Some(id), pending := None);
    } else {
      if !Allowed(s.phases[id], phase) {
        return false, next;
      }
      if s.active != Some(id) || e.snapshot != Value(s.visible) || keys != s.keysOf[id] {
        return false, next;
      }
    }
    next := next.(phases := next.phases[id := phase]);
    FreshNext(events, i, id);
    ok := true;
  }

  /** What the event before a phase event can be. */
  lemma Before(events: seq<Event>, i: nat)
    requires 0 < i < |events| && UpTo(events, i) && (i == 1 ==> events[0].name.RunOpen?)
    ensures events[i - 1].name.Transaction? ==> TxnShape(events[i - 1])
    ensures events[i - 1].name.Screening? ==> events[i - 1].admitted.Value? && events[i - 1].admitted.value >= 0
  {
    assert i > 1 ==> EventOk(events, i - 1);
  }

  lemma FreshNext(events: seq<Event>, i: nat, id: string)
    requires 0 < i < |events| && events[i].name.Transaction? && events[i].txn == Value(id)
    ensures forall other :: FreshTxn(events, i + 1, other) <==> FreshTxn(events, i, other) && other != id
  {
  }

  predicate Identified(e: Event) {
    e.txn.Value? && e.phase.Value? && e.keys.Value? && GoodKeys(e.keys.value)
  }

  /** `Linked`, for an event whose cache outcome is not checked yet. */
  predicate Chained(events: seq<Event>, i: nat)
    requires 0 < i < |events| && Identified(events[i])
  {
    var before, e := events[i - 1], events[i];
    if before.name.Screening? then
      && e.phase.value.PREPARED? && before.admitted == Value(|e.keys.value|)
      && UniqueKeys(e.keys.value) && FreshTxn(events, i, e.txn.value)
    else
      && before.name.Transaction? && before.txn == e.txn && before.keys == e.keys
      && before.phase.Value? && Allowed(before.phase.value, e.phase.value)
  }

  /** One phase event. */
  method ReplayTransaction(events: seq<Event>, i: nat, s: Replay, keyDigest: seq<string> -> string) returns (ok: bool, next: Replay)
    requires 0 < i < |events| && UpTo(events, i) && Tracks(events, i, s, keyDigest) && events[i].name.Transaction?
    requires i == 1 ==> events[0].name.RunOpen?
    ensures ok <==> EventOk(events, i)
    ensures ok ==> Tracks(events, i + 1, next, keyDigest)
  {
    hide FreshTxn, Owners, UniqueKeys, IsDigest, UpTo;
    var e := events[i];
    next := s;
    if !e.txn.Value? || !e.phase.Value? || !e.keys.Value? || !GoodKeys(e.keys.value) {
      return false, next;
    }
    var phase, keys := e.phase.value, e.keys.value;
    var bound, named := Bind(events, i, s);
    if !bound {
      return false, next;
    }
    next := named;
    if e.cacheOutcome != Absent && !(phase.INTERRUPTED? && e.cacheOutcome == Value(UNKNOWN_OUTCOME)) {
      return false, next;
    }
    if phase.COMMITTED? {
      if !e.stateDigest.Value? || !IsDigest(e.stateDigest.value) || e.generation != Value(s.generation + 1)
         || !e.startedWork.Value? || e.startedWork.value < s.lastWork {
        return false, next;
      }
      next := next.(visible := e.stateDigest.value, generation := next.generation + 1, lastWork := e.startedWork.value,
                    committedKeyDigests := next.committedKeyDigests + [keyDigest(keys)], committed := next.committed + 1);
    } else if e.stateDigest != Absent || e.generation != Absent {
      return false, next;
    } else if phase.ABORTED? {
      next := next.(aborted := next.aborted + 1);
    } else if phase.INTERRUPTED? {
      next := next.(interrupted := next.interrupted + 1,
                    prefixSafety := next.prefixSafety && e.cacheOutcome != Value(UNKNOWN_OUTCOME));
    } else {
      next := next.(stuttering := next.stuttering + 1);
    }
    if Terminal(phase) {
      next := next.(active := None);
    }
    OwnersOnly(events, i + 1, named.(active := if Terminal(phase) then None else named.active), next);
    ok := true;
  }

  lemma OwnersOnly(events: seq<Event>, n: nat, s: Replay, t: Replay)
    requires 0 < n <= |events| && Owners(events, n, s)
    requires t.phases == s.phases && t.keysOf == s.keysOf && t.active == s.active && t.pending == s.pending
    ensures Owners(events, n, t)
  {
  }

  /** The replay: a receipt exactly for the well-formed traces, and what it tells is true of the trace. */
  method ReplayAggregateRefinement(events: seq<Event>, keyDigest: seq<string> -> string) returns (r: Option<Receipt>)
    ensures r.Some? <==> WellFormedTrace(events)
    ensures r.Some? ==> Tells(r.value, events, |events|, keyDigest)
  {
    hide EventOk, Tracks;
    if events == [] || !events[0].name.RunOpen? || !events[|events| - 1].name.RunTerminated? {
      return None;
    }
    if !events[0].stateDigest.Value? || !IsDigest(events[0].stateDigest.value) {
      return None;
    }
    var n := |events| - 1;
    var s := Replay(events[0].stateDigest.value, 0, map[], map[], None, None, 0, 0, 0, 0, [], true, 0);
    Begins(events, s, keyDigest);
    for i := 1 to n
      invariant UpTo(events, i) && Tracks(events, i, s, keyDigest)
    {
      var ok;
      if events[i].name.Transaction? {
        ok, s := ReplayTransaction(events, i, s, keyDigest);
      } else {
        ok, s := ReplayBoundary(events, i, s, keyDigest);
      }
      if !ok {
        Refuted(events, i);
        return None;
      }
    }
    TraceUpTo(events);
    if (exists id | id in s.phases :: !Terminal(s.phases[id])) || s.active.Some? || !(s.pending == None || s.pending == Some(0)) {
      NotSettled(events, s, keyDigest);
      return None;
    }
    Finishes(events, s, keyDigest);
    return Some(Receipt(s.committed, s.aborted, s.interrupted, s.visible, s.generation, s.stuttering,
                        s.committedKeyDigests, s.prefixSafety));
  }

  lemma Begins(events: seq<Event>, s: Replay, keyDigest: seq<string> -> string)
    requires events != [] && events[0].name.RunOpen? && events[0].stateDigest.Value?
    requires s == Replay(events[0].stateDigest.value, 0, map[], map[], None, None, 0, 0, 0, 0, [], true, 0)
    ensures Tracks(events, 1, s, keyDigest)
  {
    forall p ensures CountOf(events, 1, p) == 0 { assert CountOf(events, 0, p) == 0; }
  }

  lemma Refuted(events: seq<Event>, i: nat)
    requires 0 < i < |events| - 1 && !EventOk(events, i)
    ensures !WellFormedTrace(events)
  {
    hide EventOk;
    var prefix := events[..|events| - 1];
    EventStays(prefix, [events[|events| - 1]], i);
    assert prefix + [events[|events| - 1]] == events;
  }

  lemma TraceUpTo(events: seq<Event>)
    requires |events| >= 2 && UpTo(events, |events| - 1)
    requires events[0].name.RunOpen? && events[0].stateDigest.Value? && IsDigest(events[0].stateDigest.value)
    ensures OpenTrace(events[..|events| - 1])
  {
    hide EventOk, IsDigest;
    var prefix := events[..|events| - 1];
    assert prefix + [events[|events| - 1]] == events;
    forall i | 0 < i < |prefix| ensures EventOk(prefix, i) { EventStays(prefix, [events[|events| - 1]], i); }
  }

  lemma NotSettled(events: seq<Event>, s: Replay, keyDigest: seq<string> -> string)
    requires |events| >= 2 && UpTo(events, |events| - 1) && Tracks(events, |events| - 1, s, keyDigest)
    requires (exists id | id in s.phases :: !Terminal(s.phases[id])) || s.active.Some? || !(s.pending == None || s.pending == Some(0))
    ensures !WellFormedTrace(events)
  {
    hide Totals, OpenTrace;
  }

  lemma Finishes(events: seq<Event>, s: Replay, keyDigest: seq<string> -> string)
    requires |events| >= 2 && UpTo(events, |events| - 1) && Tracks(events, |events| - 1, s, keyDigest)
    requires OpenTrace(events[..|events| - 1]) && events[|events| - 1].name.RunTerminated?
    requires (forall id | id in s.phases :: Terminal(s.phases[id])) && s.active == None && (s.pending == None || s.pending == Some(0))
    ensures WellFormedTrace(events)
    ensures Tells(Receipt(s.committed, s.aborted, s.interrupted, s.visible, s.generation, s.stuttering,
                          s.committedKeyDigests, s.prefixSafety), events, |events|, keyDigest)
  {
    var n := |events| - 1;
    assert n > 1 ==> EventOk(events, n - 1);
  }
}
