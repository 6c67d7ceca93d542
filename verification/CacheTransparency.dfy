/** The cache holds the evaluations of committed rounds and nothing else, and using it changes no result. */
module CacheTransparency {
  import opened Options
  import opened RuntimeContracts
  import opened Admission
  import opened Evaluation
  import opened WorkLedger
  import opened CacheStore
  import opened SemanticTrace
  import opened RoundModel
  import opened TraceCompleteness

  /** Equal keys mean equal evaluations. */
  ghost predicate KeysDetermine(o: Oracle) {
    forall a, b :: o.key(a) == o.key(b) ==> o.evaluate(a) == o.evaluate(b)
  }

  /** Every cached value is what evaluating a candidate of that key would give. */
  ghost predicate Genuine(o: Oracle, values: map<string, State>) {
    forall c :: o.key(c) in values ==> o.evaluate(c) == Evaluated(values[o.key(c)])
  }

  lemma {:induction false} StagedAt(keys: seq<string>, states: seq<State>, i: nat)
    requires |keys| == |states| && UniqueKeys(keys) && i < |keys|
    ensures Staged(keys, states)[keys[i]] == states[i]
  {
    var n := |keys| - 1;
    if i < n { StagedAt(keys[..n], states[..n], i); }
  }

  /** A missing candidate and what it evaluates to, as one finds them in the stage. */
  lemma StagedOne(o: Oracle, admitted: seq<Candidate>, values: map<string, State>, b: Batch, states: seq<State>, i: nat)
    requires UniqueKeys(KeysOf(o, admitted)) && i < |admitted| && o.key(admitted[i]) !in values
    requires b == Batch(o, At(admitted, Missing(KeysOf(o, admitted), values)), b.fault) && EvaluateAll(b) == Values(states)
    ensures var staged := Staged(At(KeysOf(o, admitted), Missing(KeysOf(o, admitted), values)), states);
      o.key(admitted[i]) in staged && o.evaluate(admitted[i]) == Evaluated(staged[o.key(admitted[i])])
  {
    hide EvaluateRange, Staged;
    var keys := KeysOf(o, admitted);
    var missing := Missing(keys, values);
    FirstFailureWins(b, |missing|);
    assert UniqueKeys(At(keys, missing));
    assert keys[i] !in values;
    var j :| 0 <= j < |missing| && missing[j] == i;
    assert At(keys, missing)[j] == keys[i];
    StagedAt(At(keys, missing), states, j);
    assert OutcomeAt(b, j) == Evaluated(states[j]);
  }

  lemma StagedGenuine(o: Oracle, admitted: seq<Candidate>, values: map<string, State>, fault: nat -> Option<Fault>, states: seq<State>)
    requires UniqueKeys(KeysOf(o, admitted))
    requires EvaluateAll(Batch(o, At(admitted, Missing(KeysOf(o, admitted), values)), fault)) == Values(states)
    ensures var staged := Staged(At(KeysOf(o, admitted), Missing(KeysOf(o, admitted), values)), states);
      forall i | 0 <= i < |admitted| && o.key(admitted[i]) !in values ::
        o.key(admitted[i]) in staged && o.evaluate(admitted[i]) == Evaluated(staged[o.key(admitted[i])])
    ensures var staged := Staged(At(KeysOf(o, admitted), Missing(KeysOf(o, admitted), values)), states);
      forall key | key in staged :: key !in values && exists i | 0 <= i < |admitted| :: o.key(admitted[i]) == key
  {
    hide EvaluateRange, Staged, UniqueKeys;
    var keys := KeysOf(o, admitted);
    var missing := Missing(keys, values);
    var b := Batch(o, At(admitted, missing), fault);
    var staged := Staged(At(keys, missing), states);
    forall i | 0 <= i < |admitted| && o.key(admitted[i]) !in values
      ensures o.key(admitted[i]) in staged && o.evaluate(admitted[i]) == Evaluated(staged[o.key(admitted[i])])
    {
      StagedOne(o, admitted, values, b, states, i);
    }
    forall key | key in staged ensures key !in values && exists i | 0 <= i < |admitted| :: o.key(admitted[i]) == key {
      var j :| 0 <= j < |missing| && At(keys, missing)[j] == key;
      assert keys[missing[j]] == key && o.key(admitted[missing[j]]) == key;
    }
  }

  /** Taking cached values instead of evaluating makes no difference: the resolved states are the evaluations of all
      admitted candidates, in order. */
  lemma ResolvedIsFresh(o: Oracle, admitted: seq<Candidate>, values: map<string, State>, fault: nat -> Option<Fault>, states: seq<State>)
    requires Genuine(o, values) && UniqueKeys(KeysOf(o, admitted))
    requires EvaluateAll(Batch(o, At(admitted, Missing(KeysOf(o, admitted), values)), fault)) == Values(states)
    ensures var keys := KeysOf(o, admitted); var staged := Staged(At(keys, Missing(keys, values)), states);
      (forall i | 0 <= i < |keys| :: keys[i] in values || keys[i] in staged)
      && forall i | 0 <= i < |admitted| :: o.evaluate(admitted[i]) == Evaluated(Resolved(keys, values, staged)[i])
  {
    hide EvaluateRange, Staged, Missing, At;
    var keys := KeysOf(o, admitted);
    StagedGenuine(o, admitted, values, fault, states);
    MissingCovered(keys, values);
  }

  /** A store grown by the stage still holds genuine values only. */
  lemma GrownGenuine(o: Oracle, values: map<string, State>, staged: map<string, State>, admitted: seq<Candidate>)
    requires KeysDetermine(o) && Genuine(o, values)
    requires forall i | 0 <= i < |admitted| && o.key(admitted[i]) !in values ::
      o.key(admitted[i]) in staged && o.evaluate(admitted[i]) == Evaluated(staged[o.key(admitted[i])])
    requires forall key | key in staged :: key !in values && exists i | 0 <= i < |admitted| :: o.key(admitted[i]) == key
    ensures Genuine(o, values + staged)
    ensures (values + staged).Keys == values.Keys + set c | c in admitted :: o.key(c)
    ensures forall key | key in values :: (values + staged)[key] == values[key]
  {
    forall c | o.key(c) in values + staged ensures o.evaluate(c) == Evaluated((values + staged)[o.key(c)]) {
      if o.key(c) in staged {
        var i :| 0 <= i < |admitted| && o.key(admitted[i]) == o.key(c);
      }
    }
    forall key ensures key in values + staged <==> key in values.Keys + set c | c in admitted :: o.key(c) {
      if c :| c in admitted && o.key(c) == key {
        var i :| 0 <= i < |admitted| && admitted[i] == c;
      }
    }
  }

  // ---- the cache over a run ----------------------------------------------------------------------------------

  function Elements(keys: seq<string>): set<string> { set k | k in keys }

  function NewKeys(e: Event): set<string> {
    if IsTxn(e, COMMITTED) && e.keys.Value? then Elements(e.keys.value) else {}
  }

  /** The keys of all committed transactions in the trace. */
  function PublishedKeys(events: seq<Event>): set<string> {
    if events == [] then {} else PublishedKeys(events[..|events| - 1]) + NewKeys(events[|events| - 1])
  }

  lemma KeysGrow(events: seq<Event>, e: Event)
    ensures PublishedKeys(events + [e]) == PublishedKeys(events) + NewKeys(e)
  {
    assert (events + [e])[..|events|] == events;
  }

  /** The position tells the truth about its state, and the cache holds what the committed transactions published. */
  ghost predicate CacheMatches(o: Oracle, pos: Position) {
    && Genuine(o, pos.values) && pos.values.Keys == PublishedKeys(pos.events) && pos.digest == o.digest(pos.state)
    && pos.events != []
  }

  predicate EndsCommitted(pos: Position) { pos.events != [] && IsTxn(pos.events[|pos.events| - 1], COMMITTED) }

  ghost predicate Untouched(pos: Position, after: Position) {
    && after.values == pos.values && after.generation == pos.generation && after.state == pos.state && after.digest == pos.digest
  }

  /** How a round that starts in `pos` leaves the cache: published whole with the commit, or as it was, unless the store
      published a commit and then could not show it. */
  ghost predicate Atomic(o: Oracle, pos: Position, s: Step, w: Weather) {
    if EndsCommitted(s.position) then
      && CacheMatches(o, s.position) && s.position.generation == pos.generation + 1
      && (forall key | key in pos.values :: key in s.position.values && s.position.values[key] == pos.values[key])
    else
      && s.position.events != [] && PublishedKeys(s.position.events) == PublishedKeys(pos.events) && !s.end.Continue?
      && s.position.state == pos.state && s.position.digest == pos.digest
      && (Untouched(pos, s.position) || (Blind(w.backend) && s.end.Fail? && s.position.generation == pos.generation + 1))
  }

  /** A commit that ends without COMMITTED touched the store exactly if the store published without showing it. */
  lemma CommitAtomic(o: Oracle, pos: Position, t: Ticket, next: State, staged: map<string, State>, w: Weather)
    ensures var s := CommitOf(o, pos, t, next, staged, w);
      if EndsCommitted(s.position) then s.position.values == pos.values + staged && s.position.generation == pos.generation + 1
      else (s.position.values == pos.values && s.position.generation == pos.generation <==> !Blind(w.backend))
  {
    hide IsTxn;
    var s, v := CommitOf(o, pos, t, next, staged, w), VerdictFor(w.backend);
    if w.backend.refuses.Some? {
      NotCommitted(pos, PhaseEvent(t, ABORTED));
      NotCommitted(pos, PhaseEvent(t, INTERRUPTED));
    } else if v.Confirmed? || v.Repaired? {
      var e := CommitEvent(t, o.digest(next), pos.generation + 1, pos.started, |staged|, v.Repaired?);
      assert s.position.events == pos.events + [e];
      assert IsTxn(e, COMMITTED) by { CommitIsTxn(t, o.digest(next), pos.generation + 1, pos.started, |staged|, v.Repaired?); }
    } else {
      var e := if v.Unverified? then PhaseEvent(t, ABORTED) else PhaseEvent(t, INTERRUPTED).(cacheOutcome := Value(UNKNOWN_OUTCOME));
      assert s.position.events == pos.events + [e];
      NotCommitted(pos, e);
    }
  }

  predicate EndsIn(pos: Position, p: Phase) { pos.events != [] && IsTxn(pos.events[|pos.events| - 1], p) }

  /** Of the two ways to touch the store without a COMMITTED event, the one that reports an unknown outcome is taken when
      the store closed the transaction, and the one that reports an abort when it did not. */
  lemma HiddenPublication(o: Oracle, pos: Position, t: Ticket, next: State, staged: map<string, State>, w: Weather)
    ensures var s, b := CommitOf(o, pos, t, next, staged, w), w.backend;
      && ((EndsIn(s.position, ABORTED) && s.position.generation != pos.generation)
          <==> b.refuses.None? && b.publishes && b.snapshotFails && !b.closes)
      && ((EndsIn(s.position, INTERRUPTED) && s.position.generation != pos.generation)
          <==> b.refuses.None? && b.publishes && b.snapshotFails && b.closes)
  {
    hide IsTxn;
    var s, v := CommitOf(o, pos, t, next, staged, w), VerdictFor(w.backend);
    CommitIsTxn(t, o.digest(next), pos.generation + 1, pos.started, |staged|, v.Repaired?);
    PhaseIsTxn(t, ABORTED);
    PhaseIsTxn(t, INTERRUPTED);
    if w.backend.refuses.None? {
      var e := if v.Confirmed? || v.Repaired? then CommitEvent(t, o.digest(next), pos.generation + 1, pos.started, |staged|, v.Repaired?)
               else if v.Unverified? then PhaseEvent(t, ABORTED)
               else PhaseEvent(t, INTERRUPTED).(cacheOutcome := Value(UNKNOWN_OUTCOME));
      assert s.position.events == pos.events + [e];
    }
  }

  lemma PhaseIsTxn(t: Ticket, p: Phase)
    ensures forall q :: IsTxn(PhaseEvent(t, p), q) <==> q == p
    ensures forall q :: IsTxn(PhaseEvent(t, p).(cacheOutcome := Value(UNKNOWN_OUTCOME)), q) <==> q == p
  {
  }

  /** A store that publishes, leaves the transaction open and cannot show a snapshot: the round ends ABORTED, the run
      keeps the old state, and the store holds the staged values. */
  lemma AbortedYetPublished(o: Oracle, pos: Position, t: Ticket, next: State, staged: map<string, State>, w: Weather, receiptGood: bool)
    requires w.backend == Backend(None, true, false, receiptGood, true)
    ensures var s := CommitOf(o, pos, t, next, staged, w);
      && EndsIn(s.position, ABORTED) && s.end == Fail(Reason.RuntimeContractError) && s.position.state == pos.state
      && s.position.values == pos.values + staged && s.position.generation == pos.generation + 1
  {
    var s := CommitOf(o, pos, t, next, staged, w);
    assert s.position.events == pos.events + [PhaseEvent(t, ABORTED)];
  }

  lemma CommitIsTxn(t: Ticket, digest: string, generation: nat, started: nat, writes: nat, repaired: bool)
    ensures forall q :: IsTxn(CommitEvent(t, digest, generation, started, writes, repaired), q) <==> q == COMMITTED
  {
  }

  lemma NotCommitted(pos: Position, e: Event)
    requires e.phase != Value(COMMITTED)
    ensures !EndsCommitted(pos.(events := pos.events + [e]))
  {
  }

  /** An event that is not a commit changes nothing the cache shows. */
  lemma LogMatches(o: Oracle, pos: Position, e: Event)
    requires !IsTxn(e, COMMITTED)
    ensures PublishedKeys(Log(pos, e).events) == PublishedKeys(pos.events)
    ensures CacheMatches(o, pos) ==> CacheMatches(o, Log(pos, e))
    ensures !EndsCommitted(Log(pos, e))
  {
    KeysGrow(pos.events, e);
  }

  lemma AbortAtomic(o: Oracle, pos: Position, t: Ticket, w: Weather, reason: Reason, q: Phase)
    requires CacheMatches(o, pos) && !q.COMMITTED?
    ensures Atomic(o, pos, Abort(pos, t, reason), w) && Atomic(o, pos, RollBack(pos, t, w, q, reason), w)
  {
    hide PublishedKeys;
    LogMatches(o, pos, PhaseEvent(t, ABORTED));
    LogMatches(o, pos, PhaseEvent(t, q));
  }

  /** Going back along events that are not commits. */
  lemma AtomicFrom(o: Oracle, pos: Position, later: Position, s: Step, w: Weather)
    requires Atomic(o, later, s, w) && later.values == pos.values && later.generation == pos.generation
    requires later.state == pos.state && later.digest == pos.digest && PublishedKeys(later.events) == PublishedKeys(pos.events)
    ensures Atomic(o, pos, s, w)
  {
  }

  /** What the stage must hold when the resolved states are published. */
  ghost predicate StageReady(o: Oracle, values: map<string, State>, staged: map<string, State>, admitted: seq<Candidate>) {
    && (forall i | 0 <= i < |admitted| && o.key(admitted[i]) !in values ::
          o.key(admitted[i]) in staged && o.evaluate(admitted[i]) == Evaluated(staged[o.key(admitted[i])]))
    && (forall key | key in staged :: key !in values && exists i | 0 <= i < |admitted| :: o.key(admitted[i]) == key)
  }

  lemma PublishAtomic(k: Kernel, o: Oracle, pos: Position, t: Ticket, admitted: seq<Candidate>, resolved: seq<State>,
                      staged: map<string, State>, round: nat, w: Weather)
    requires KeysDetermine(o) && CacheMatches(o, pos) && t.keys == KeysOf(o, admitted) && StageReady(o, pos.values, staged, admitted)
    ensures Atomic(o, pos, PublishOf(k, o, pos, t, admitted, resolved, staged, round, w), w)
  {
    hide PublishedKeys, Genuine, CommitOf, Atomic, CacheMatches, KeysDetermine, StageReady;
    match k.decide(pos.state, admitted, resolved, round)
    case Raised(f) => AbortAtomic(o, pos, t, w, ReasonOf(f), ABORTED);
    case Evaluated(next) =>
      AbortAtomic(o, pos, t, w, Reason.RuntimeContractError, ABORTED);
      if StateFault(o, next).Some? { AbortAtomic(o, pos, t, w, ReasonOf(StateFault(o, next).value), ABORTED); }
      StepAtomic(o, pos, t, next, staged, w, admitted);
  }

  lemma StepAtomic(o: Oracle, pos: Position, t: Ticket, next: State, staged: map<string, State>, w: Weather, admitted: seq<Candidate>)
    requires KeysDetermine(o) && CacheMatches(o, pos) && t.keys == KeysOf(o, admitted) && StageReady(o, pos.values, staged, admitted)
    ensures Atomic(o, pos, CommitOf(o, pos, t, next, staged, w), w)
  {
    hide PublishedKeys, Genuine;
    if w.backend.refuses.Some? {
      hide Atomic, CacheMatches;
      AbortAtomic(o, pos, t, w, StaleSnapshot, INTERRUPTED);
      AbortAtomic(o, pos, t, w, CacheWriteFailure, ABORTED);
      if w.backend.refuses.value.RefusedOther? { AbortAtomic(o, pos, t, w, ReasonOf(w.backend.refuses.value.fault), ABORTED); }
    } else {
      GrownGenuine(o, pos.values, staged, admitted);
      SameKeys(o, admitted);
      AcknowledgedAtomic(o, pos, t, next, staged, w);
    }
  }

  lemma AcknowledgedAtomic(o: Oracle, pos: Position, t: Ticket, next: State, staged: map<string, State>, w: Weather)
    requires CacheMatches(o, pos) && w.backend.refuses.None?
    requires Genuine(o, pos.values + staged) && (pos.values + staged).Keys == pos.values.Keys + Elements(t.keys)
    requires forall key | key in pos.values :: (pos.values + staged)[key] == pos.values[key]
    ensures Atomic(o, pos, CommitOf(o, pos, t, next, staged, w), w)
  {
    hide PublishedKeys, Genuine, Atomic, CacheMatches, EndsCommitted;
    var s, v := CommitOf(o, pos, t, next, staged, w), VerdictFor(w.backend);
    if v.Confirmed? || v.Repaired? {
      var e := CommitEvent(t, o.digest(next), pos.generation + 1, pos.started, |staged|, v.Repaired?);
      assert s.position.events == pos.events + [e];
      PublishedMatches(o, pos, staged, s, e, w);
    } else {
      var e := if v.Unverified? then PhaseEvent(t, ABORTED) else PhaseEvent(t, INTERRUPTED).(cacheOutcome := Value(UNKNOWN_OUTCOME));
      assert s.position.events == pos.events + [e];
      UnpublishedMatches(o, pos, staged, s, e, w);
    }
  }

  lemma PublishedMatches(o: Oracle, pos: Position, staged: map<string, State>, s: Step, e: Event, w: Weather)
    requires CacheMatches(o, pos) && IsTxn(e, COMMITTED) && e.keys.Value? && s.position.events == pos.events + [e]
    requires s.position.values == pos.values + staged && s.position.generation == pos.generation + 1
    requires s.position.digest == o.digest(s.position.state)
    requires Genuine(o, pos.values + staged) && (pos.values + staged).Keys == pos.values.Keys + Elements(e.keys.value)
    requires forall key | key in pos.values :: (pos.values + staged)[key] == pos.values[key]
    ensures Atomic(o, pos, s, w)
  {
    hide PublishedKeys, Genuine, Elements;
    KeysGrow(pos.events, e);
  }

  lemma UnpublishedMatches(o: Oracle, pos: Position, staged: map<string, State>, s: Step, e: Event, w: Weather)
    requires CacheMatches(o, pos) && !IsTxn(e, COMMITTED) && s.position.events == pos.events + [e] && s.end.Fail?
    requires s.position.state == pos.state && s.position.digest == pos.digest
    requires (s.position.values == pos.values && s.position.generation == pos.generation)
      || (Blind(w.backend) && s.position.generation == pos.generation + 1)
    ensures Atomic(o, pos, s, w)
  {
    hide PublishedKeys, Genuine;
    KeysGrow(pos.events, e);
  }

  lemma SameKeys(o: Oracle, admitted: seq<Candidate>)
    ensures Elements(KeysOf(o, admitted)) == set c | c in admitted :: o.key(c)
  {
    var keys := KeysOf(o, admitted);
    forall key ensures key in Elements(keys) <==> key in (set c | c in admitted :: o.key(c)) {
      if key in keys {
        var i :| 0 <= i < |keys| && keys[i] == key;
        assert admitted[i] in admitted;
      }
      if c :| c in admitted && o.key(c) == key {
        var i :| 0 <= i < |admitted| && admitted[i] == c;
        assert keys[i] == key;
      }
    }
  }

  lemma EvaluateAtomic(k: Kernel, o: Oracle, c: Config, pos: Position, t: Ticket, admitted: seq<Candidate>, work: seq<nat>,
                       round: nat, w: Weather)
    requires KeysDetermine(o) && CacheMatches(o, pos) && t.keys == KeysOf(o, admitted) && UniqueKeys(t.keys)
    ensures Atomic(o, pos, EvaluateOf(k, o, c, pos, t, admitted, work, round, w), w)
  {
    hide PublishedKeys, Genuine, Atomic, CacheMatches, KeysDetermine, StageReady, EvaluateRange, Total, Missing, At, Staged,
         ResolveOf, EvaluationFails;
    var missing := Missing(t.keys, pos.values);
    match EvaluateAll(Batch(o, At(admitted, missing), w.fault))
    case Failure(f) => FailsAtomic(o, c, pos, t, f, w);
    case Values(states) =>
      var staged := Staged(At(t.keys, missing), states);
      StagedGenuine(o, admitted, pos.values, w.fault, states);
      MissingCovered(t.keys, pos.values);
      assert StageReady(o, pos.values, staged, admitted) by { StageIsReady(o, pos.values, staged, admitted); }
      var later := pos.(started := pos.started + Total(work));
      LaterMatches(o, pos, later);
      ResolveAtomic(k, o, c, later, t, admitted, missing != [], staged, round, w);
      AtomicFrom(o, pos, later, ResolveOf(k, o, c, later, t, admitted, missing != [], staged, round, w), w);
  }

  lemma StageIsReady(o: Oracle, values: map<string, State>, staged: map<string, State>, admitted: seq<Candidate>)
    requires forall i | 0 <= i < |admitted| && o.key(admitted[i]) !in values ::
      o.key(admitted[i]) in staged && o.evaluate(admitted[i]) == Evaluated(staged[o.key(admitted[i])])
    requires forall key | key in staged :: key !in values && exists i | 0 <= i < |admitted| :: o.key(admitted[i]) == key
    ensures StageReady(o, values, staged, admitted)
  {
  }

  lemma LaterMatches(o: Oracle, pos: Position, later: Position)
    requires CacheMatches(o, pos) && later == pos.(started := later.started)
    ensures CacheMatches(o, later)
  {
  }

  lemma FailsAtomic(o: Oracle, c: Config, pos: Position, t: Ticket, f: Fault, w: Weather)
    requires CacheMatches(o, pos)
    ensures Atomic(o, pos, EvaluationFails(c, pos, t, f, w), w)
  {
    hide Atomic, CacheMatches;
    AbortAtomic(o, pos, t, w, Reason.RuntimeContractError, ABORTED);
    AbortAtomic(o, pos, t, w, ReasonOf(f), ABORTED);
    AbortAtomic(o, pos, t, w, WorkerFailure, ABORTED);
    AbortAtomic(o, pos, t, w, Deadline, INTERRUPTED);
  }

  lemma ResolveAtomic(k: Kernel, o: Oracle, c: Config, pos: Position, t: Ticket, admitted: seq<Candidate>, observed: bool,
                      staged: map<string, State>, round: nat, w: Weather)
    requires forall i | 0 <= i < |t.keys| :: t.keys[i] in pos.values || t.keys[i] in staged
    requires KeysDetermine(o) && CacheMatches(o, pos) && t.keys == KeysOf(o, admitted) && StageReady(o, pos.values, staged, admitted)
    ensures Atomic(o, pos, ResolveOf(k, o, c, pos, t, admitted, observed, staged, round, w), w)
  {
    hide PublishedKeys, Genuine, Atomic, CacheMatches, KeysDetermine, StageReady, FirstInvalid, PublishOf;
    if w.observationFault.Some? { AbortAtomic(o, pos, t, w, ReasonOf(w.observationFault.value), ABORTED); }
    AbortAtomic(o, pos, t, w, Deadline, INTERRUPTED);
    AbortAtomic(o, pos, t, w, ValidationFailure, ABORTED);
    var resolved := Resolved(t.keys, pos.values, staged);
    if FirstInvalid(o, resolved).Some? { AbortAtomic(o, pos, t, w, ReasonOf(FirstInvalid(o, resolved).value), ABORTED); }
    var later := Log(pos, PhaseEvent(t, VALIDATED));
    LogMatches(o, pos, PhaseEvent(t, VALIDATED));
    PublishAtomic(k, o, later, t, admitted, resolved, staged, round, w);
    AtomicFrom(o, pos, later, PublishOf(k, o, later, t, admitted, resolved, staged, round, w), w);
  }

  lemma ReserveAtomic(k: Kernel, o: Oracle, c: Config, pos: Position, t: Ticket, admitted: seq<Candidate>, round: nat, w: Weather)
    requires KeysDetermine(o) && CacheMatches(o, pos) && t.keys == KeysOf(o, admitted) && UniqueKeys(t.keys)
    ensures Atomic(o, pos, ReserveOf(k, o, c, pos, t, admitted, round, w), w)
  {
    hide PublishedKeys, Genuine, Atomic, CacheMatches, KeysDetermine, UniqueKeys, EvaluateOf, Total, WorkOf;
    if w.beginFault.Some? { AbortAtomic(o, pos, t, w, ReasonOf(w.beginFault.value), ABORTED); }
    if w.lookupFault.Some? { AbortAtomic(o, pos, t, w, ReasonOf(w.lookupFault.value), ABORTED); }
    AbortAtomic(o, pos, t, w, StaleSnapshot, INTERRUPTED);
    AbortAtomic(o, pos, t, w, Reason.RuntimeContractError, ABORTED);
    AbortAtomic(o, pos, t, w, RuntimeException, ABORTED);
    var work := WorkOf(o, At(admitted, Missing(t.keys, pos.values)));
    if work.Some? {
      var e := PhaseEvent(t, INTERRUPTED).(startedWork := Value(pos.started),
                                           detail := WorkDetail(Total(work.value), RemainingWork(c, pos.started)));
      LogMatches(o, pos, e);
      assert Atomic(o, pos, Step(Log(pos, e), Finish(FixedWorkExhausted)), w) by { QuietStep(o, pos, e, FixedWorkExhausted, w); }
      var reserved := Log(pos, PhaseEvent(t, RESERVED));
      LogMatches(o, pos, PhaseEvent(t, RESERVED));
      var evaluating := Log(reserved, PhaseEvent(t, EVALUATING));
      LogMatches(o, reserved, PhaseEvent(t, EVALUATING));
      EvaluateAtomic(k, o, c, evaluating, t, admitted, work.value, round, w);
      AtomicFrom(o, pos, evaluating, EvaluateOf(k, o, c, evaluating, t, admitted, work.value, round, w), w);
    }
  }

  lemma QuietStep(o: Oracle, pos: Position, e: Event, reason: Reason, w: Weather)
    requires CacheMatches(o, pos) && !IsTxn(e, COMMITTED)
    ensures Atomic(o, pos, Step(Log(pos, e), Finish(reason)), w)
  {
    LogMatches(o, pos, e);
  }

  /** A round publishes state and cache whole, with the commit, or leaves both alone; and then the cache holds exactly
      what the committed transactions of the trace admitted, each key with its evaluation. */
  lemma RoundAtomic(k: Kernel, o: Oracle, c: Config, pos: Position, round: nat, w: Weather)
    requires KeysDetermine(o) && CacheMatches(o, pos)
    ensures var s := RoundOf(k, o, c, pos, round, w); s.position == pos || Atomic(o, pos, s, w)
    ensures RoundOf(k, o, c, pos, round, w).end.Continue? ==> CacheMatches(o, RoundOf(k, o, c, pos, round, w).position)
  {
    hide PublishedKeys, Genuine, CacheMatches, KeysDetermine, UniqueKeys, ReserveOf, AdmissionOf, GoodKeys;
    var proposed := k.propose(pos.state, round);
    if proposed.Some? && proposed.value != [] && (k.admissionLimit.Some? ==> k.admissionLimit.value > 0) {
      var candidates := proposed.value;
      var limit := if k.admissionLimit.Some? then Some(k.admissionLimit.value as nat) else None;
      AdmittedKeys(o, candidates, limit);
      match AdmissionOf(o, candidates, limit)
      case None =>
      case Some(a) =>
        var screened := Log(pos, ScreeningEvent(|candidates|, a, limit));
        LogMatches(o, pos, ScreeningEvent(|candidates|, a, limit));
        var ended := BARE.(name := RoundTerminated, detail := ReasonDetail(NoAdmissibleCandidates));
        QuietStep(o, screened, ended, NoAdmissibleCandidates, w);
        AtomicFrom(o, pos, screened, Step(Log(screened, ended), Finish(NoAdmissibleCandidates)), w);
        var t := Ticket(RoundNames.RoundName(round), pos.digest, KeysOf(o, a.admitted));
        var prepared := Log(screened, PhaseEvent(t, PREPARED));
        LogMatches(o, screened, PhaseEvent(t, PREPARED));
        ReserveAtomic(k, o, c, prepared, t, a.admitted, round, w);
        AtomicFrom(o, pos, prepared, ReserveOf(k, o, c, prepared, t, a.admitted, round, w), w);
    }
  }

  /** Over a whole run. */
  lemma {:induction false} RunMatches(k: Kernel, o: Oracle, c: Config, pos: Position, round: nat, weather: nat -> Weather)
    requires KeysDetermine(o) && CacheMatches(o, pos)
    ensures var s := RunFrom(k, o, c, pos, round, weather);
      && s.position.digest == o.digest(s.position.state)
      && (CacheMatches(o, s.position) || (s.end.Fail? && exists r | round <= r < c.maxRounds :: Blind(weather(r).backend)))
    decreases c.maxRounds - round
  {
    hide RoundOf, PublishedKeys, Genuine, KeysDetermine;
    if round < c.maxRounds {
      RoundAtomic(k, o, c, pos, round, weather(round));
      var s := RoundOf(k, o, c, pos, round, weather(round));
      if s.end.Continue? { RunMatches(k, o, c, s.position, round + 1, weather); }
    }
  }
}
