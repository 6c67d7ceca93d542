/** The runtime: rounds of candidate transactions over a cache and a work ledger. */
module TxnRuntime {
  import opened Options
  import opened RuntimeContracts
  import opened Admission
  import opened WorkLedger
  import opened Evaluation
  import opened CacheStore
  import opened SemanticTrace
  import opened RoundNames
  import opened RoundModel
  import opened RoundOutcome
  import opened TraceCompleteness
  import opened CacheTransparency
  import opened RefinementReplay

  /** The run's local variables. */
  datatype Frame = Frame(state: State, digest: string, events: seq<Event>)

  /** Frame, cache and ledger together are at `pos`. */
  ghost predicate Represents(f: Frame, cache: Store<State>, ledger: BudgetLedger, pos: Position)
    reads cache, ledger
  {
    && f.state == pos.state && f.digest == pos.digest && f.events == pos.events
    && cache.values == pos.values && cache.generation == pos.generation
    && ledger.Valid() && ledger.startedUnits == pos.started
  }

  /** A round ended as the model says; started work counts only if the run goes on. */
  ghost predicate Reaches(f: Frame, cache: Store<State>, ledger: BudgetLedger, end: End, s: Step)
    reads cache, ledger
  {
    && end == s.end && f.state == s.position.state && f.digest == s.position.digest && f.events == s.position.events
    && cache.values == s.position.values && cache.generation == s.position.generation
    && ledger.Valid() && ledger.reservedUnits == 0 && (end.Continue? ==> ledger.startedUnits == s.position.started)
  }

  ghost predicate OpenCacheTxn(txn: Txn<State>, cache: Store<State>)
    reads txn, cache
  {
    !txn.closed && txn.staged == map[] && txn.expected == cache.generation
  }

  method LogPhase(f: Frame, t: Ticket, p: Phase) returns (g: Frame)
    ensures g == f.(events := f.events + [PhaseEvent(t, p)])
  {
    g := f.(events := f.events + [PhaseEvent(t, p)]);
  }

  /** Rolls back and ends in phase `p`, or raises what the rollback raised. */
  method EndByRollback(f: Frame, cache: Store<State>, txn: Txn<State>, t: Ticket, rollbackFails: bool, p: Phase, reason: Reason)
    returns (g: Frame, end: End)
    modifies txn
    ensures g == f.(events := f.events + [PhaseEvent(t, if rollbackFails then ABORTED else p)])
    ensures end == if rollbackFails then Fail(RuntimeException) else Finish(reason)
    ensures txn.closed
  {
    if rollbackFails {
      txn.staged := map[];
      txn.closed := true;
      g := LogPhase(f, t, ABORTED);
      return g, Fail(RuntimeException);
    }
    cache.Rollback(txn);
    g := LogPhase(f, t, p);
    return g, Finish(reason);
  }

  /** The audit of a transaction that threw work away, if work is fixed and there was any. */
  method RecordWasteAudit(remainingBefore: Option<nat>, work: seq<nat>, discarded: nat, postBoundary: nat, capacity: nat)
    returns (audit: Option<WasteAudit>)
    requires remainingBefore.Some? ==> Total(work) <= remainingBefore.value
    requires discarded <= Total(work) && postBoundary <= capacity && postBoundary <= Total(work)
    ensures audit.Some? <==> remainingBefore.Some? && work != []
    ensures audit.Some? ==> audit.value.Bounded?
  {
    if remainingBefore.None? || work == [] {
      return None;
    }
    AuditPasses(remainingBefore.value, work, capacity, discarded, postBoundary);
    return Some(AuditWaste(remainingBefore.value, |work|, Largest(work), capacity, discarded, postBoundary));
  }

  /** Stage, commit and check the receipt. */
  method CommitStage(o: Oracle, f: Frame, cache: Store<State>, ledger: BudgetLedger, txn: Txn<State>, t: Ticket, next: State,
                     staged: map<string, State>, w: Weather, ghost pos: Position)
    returns (g: Frame, end: End)
    requires Represents(f, cache, ledger, pos) && ledger.reservedUnits == 0 && OpenCacheTxn(txn, cache) && "" !in staged
    modifies cache, txn
    ensures Reaches(g, cache, ledger, end, CommitOf(o, pos, t, next, staged, w))
  {
    var stagedOk := cache.Stage(txn, staged);
    assert txn.staged == staged;
    var ack := cache.CommitBy(txn, w.backend);
    if ack.Refused? {
      match ack.refusal
      case RefusedStale => g, end := EndByRollback(f, cache, txn, t, w.rollbackFails, INTERRUPTED, StaleSnapshot);
      case RefusedCache => g, end := EndByRollback(f, cache, txn, t, w.rollbackFails, ABORTED, CacheWriteFailure);
      case RefusedOther(fault) =>
        cache.Rollback(txn);
        g := LogPhase(f, t, ABORTED);
        end := Fail(ReasonOf(fault));
    } else {
      var verdict := cache.ValidateReceipt(txn, ack.receipt, staged, w.backend.snapshotFails);
      assert verdict == VerdictFor(w.backend) by { ReceiptVerdict(cache.values, pos.values, staged, w.backend); }
      match verdict
      case Confirmed =>
        g := Frame(next, o.digest(next),
                   f.events + [CommitEvent(t, o.digest(next), txn.expected + 1, ledger.startedUnits, |staged|, false)]);
        end := Continue;
      case Repaired =>
        g := Frame(next, o.digest(next),
                   f.events + [CommitEvent(t, o.digest(next), txn.expected + 1, ledger.startedUnits, |staged|, true)]);
        end := Fail(Reason.RuntimeContractError);
      case OutcomeUnknown =>
        g := f.(events := f.events + [PhaseEvent(t, INTERRUPTED).(cacheOutcome := Value(UNKNOWN_OUTCOME))]);
        end := Fail(CacheOutcomeUnknown);
      case Unverified =>
        cache.Rollback(txn);
        g := LogPhase(f, t, ABORTED);
        end := Fail(Reason.RuntimeContractError);
    }
  }

  lemma ReceiptVerdict(values: map<string, State>, before: map<string, State>, staged: map<string, State>, b: Backend)
    requires b.publishes ==> values == before + staged
    ensures b.publishes ==> Holds(values, staged)
  {
  }

  /** Decide and publish. */
  method PublishStage(k: Kernel, o: Oracle, f: Frame, cache: Store<State>, ledger: BudgetLedger, txn: Txn<State>, t: Ticket,
                      admitted: seq<Candidate>, resolved: seq<State>, staged: map<string, State>, round: nat, w: Weather,
                      ghost pos: Position)
    returns (g: Frame, end: End)
    requires Represents(f, cache, ledger, pos) && ledger.reservedUnits == 0 && OpenCacheTxn(txn, cache) && "" !in staged
    modifies cache, txn
    ensures Reaches(g, cache, ledger, end, PublishOf(k, o, pos, t, admitted, resolved, staged, round, w))
  {
    hide CommitOf, IsDigest;
    var fault: Option<Fault>;
    var decision := k.decide(f.state, admitted, resolved, round);
    match decision {
    case Raised(raised) => fault := Some(raised);
    case Evaluated(next) =>
      fault := StateFault(o, next);
      if fault.None? {
        var known := o.digest(next) == f.digest;
        for i := 0 to |resolved|
          invariant known <==> o.digest(next) == f.digest || exists j | 0 <= j < i :: o.digest(resolved[j]) == o.digest(next)
        {
          known := known || o.digest(resolved[i]) == o.digest(next);
        }
        if known {
          g, end := CommitStage(o, f, cache, ledger, txn, t, next, staged, w, pos);
          return;
        }
        fault := Some(ContractFault);
      }
    }
    cache.Rollback(txn);
    g := LogPhase(f, t, ABORTED);
    end := Fail(ReasonOf(fault.value));
  }

  lemma MissingBounds(keys: seq<string>, values: map<string, State>)
    ensures var m := Missing(keys, values);
      (forall i | 0 <= i < |m| :: m[i] < |keys| && keys[m[i]] !in values) && forall i, j | 0 <= i < j < |m| :: m[i] != m[j]
  {
  }

  lemma SlotsFilled(slots: seq<Option<State>>, keys: seq<string>, missing: seq<nat>, states: seq<State>, values: map<string, State>)
    requires |slots| == |keys| && |missing| == |states| && missing == Missing(keys, values) && UniqueKeys(keys)
    requires forall i | 0 <= i < |keys| && keys[i] in values :: slots[i] == Some(values[keys[i]])
    requires forall l | 0 <= l < |missing| :: slots[missing[l]] == Some(states[l])
    ensures forall i | 0 <= i < |keys| && keys[i] !in values ::
      keys[i] in Staged(At(keys, missing), states) && slots[i] == Some(Staged(At(keys, missing), states)[keys[i]])
  {
    hide Staged;
    assert UniqueKeys(At(keys, missing));
    forall i | 0 <= i < |keys| && keys[i] !in values
      ensures keys[i] in Staged(At(keys, missing), states) && slots[i] == Some(Staged(At(keys, missing), states)[keys[i]])
    {
      var j :| 0 <= j < |missing| && missing[j] == i;
      assert At(keys, missing)[j] == keys[i];
      StagedAt(At(keys, missing), states, j);
    }
  }

  /** The resolved states in admitted order: the lookup's values, with the gaps filled from the stage. */
  method ResolveStates(found: seq<Option<State>>, keys: seq<string>, missing: seq<nat>, states: seq<State>, ghost values: map<string, State>)
    returns (resolved: seq<State>)
    requires |found| == |keys| && |missing| == |states| && missing == Missing(keys, values) && UniqueKeys(keys)
    requires forall i | 0 <= i < |keys| :: found[i] == if keys[i] in values then Some(values[keys[i]]) else None
    requires forall i | 0 <= i < |keys| && keys[i] !in values :: keys[i] in At(keys, missing)
    ensures resolved == Resolved(keys, values, Staged(At(keys, missing), states))
  {
    hide Missing, At, UniqueKeys, Staged;
    MissingBounds(keys, values);
    var slots := found;
    for j := 0 to |missing|
      invariant |slots| == |keys|
      invariant forall i | 0 <= i < |keys| && keys[i] in values :: slots[i] == Some(values[keys[i]])
      invariant forall l | 0 <= l < j :: slots[missing[l]] == Some(states[l])
    {
      slots := slots[missing[j] := Some(states[j])];
    }
    SlotsFilled(slots, keys, missing, states, values);
    resolved := [];
    for i := 0 to |slots|
      invariant |resolved| == i && forall l | 0 <= l < i :: resolved[l] == slots[l].value
    {
      resolved := resolved + [slots[i].value];
    }
  }

  /** The fault of the first invalid state. */
  method ValidateStates(o: Oracle, states: seq<State>) returns (fault: Option<Fault>)
    ensures fault == FirstInvalid(o, states)
  {
    assert states[0..] == states;
    for i := 0 to |states|
      invariant FirstInvalid(o, states) == FirstInvalid(o, states[i..])
    {
      fault := StateFault(o, states[i]);
      if fault.Some? {
        return;
      }
      assert states[i..][1..] == states[i + 1..];
    }
    fault := None;
  }

  /** After the evaluation: deadline, validation, publication. */
  method ResolveStage(k: Kernel, o: Oracle, c: Config, f: Frame, cache: Store<State>, ledger: BudgetLedger, txn: Txn<State>,
                      t: Ticket, admitted: seq<Candidate>, resolved: seq<State>, staged: map<string, State>, observed: bool,
                      work: seq<nat>, remainingBefore: Option<nat>, startedBefore: nat, round: nat, w: Weather, ghost pos: Position)
    returns (g: Frame, end: End)
    requires Represents(f, cache, ledger, pos) && ledger.reservedUnits == 0 && OpenCacheTxn(txn, cache) && "" !in staged
    requires forall i | 0 <= i < |t.keys| :: t.keys[i] in pos.values || t.keys[i] in staged
    requires resolved == Resolved(t.keys, pos.values, staged)
    requires ledger.startedUnits == startedBefore + Total(work) && (remainingBefore.Some? ==> Total(work) <= remainingBefore.value)
    modifies cache, txn
    ensures Reaches(g, cache, ledger, end, ResolveOf(k, o, c, pos, t, admitted, observed, staged, round, w))
  {
    hide PublishOf, FirstInvalid, Total;
    if observed && w.observationFault.Some? {
      cache.Rollback(txn);
      var _ := RecordWasteAudit(remainingBefore, work, ledger.startedUnits - startedBefore, 0, 0);
      g := LogPhase(f, t, ABORTED);
      return g, Fail(ReasonOf(w.observationFault.value));
    }
    if c.fixedWork.None? && w.expiredAfter {
      var _ := RecordWasteAudit(remainingBefore, work, ledger.startedUnits - startedBefore, 0, 0);
      g, end := EndByRollback(f, cache, txn, t, w.rollbackFails, INTERRUPTED, Deadline);
      return;
    }
    var fault := ValidateStates(o, resolved);
    if fault == Some(ValueFault) {
      var _ := RecordWasteAudit(remainingBefore, work, ledger.startedUnits - startedBefore, 0, 0);
      g, end := EndByRollback(f, cache, txn, t, w.rollbackFails, ABORTED, ValidationFailure);
      return;
    }
    if fault.Some? {
      cache.Rollback(txn);
      var _ := RecordWasteAudit(remainingBefore, work, ledger.startedUnits - startedBefore, 0, 0);
      g := LogPhase(f, t, ABORTED);
      return g, Fail(ReasonOf(fault.value));
    }
    g := LogPhase(f, t, VALIDATED);
    g, end := PublishStage(k, o, g, cache, ledger, txn, t, admitted, resolved, staged, round, w, Log(pos, PhaseEvent(t, VALIDATED)));
    if !end.Continue? && !(g.events != [] && IsTxn(g.events[|g.events| - 1], COMMITTED)) {
      var _ := RecordWasteAudit(remainingBefore, work, ledger.startedUnits - startedBefore, 0, 0);
    }
  }

  /** Evaluate what the cache does not hold. */
  method EvaluateStage(k: Kernel, o: Oracle, c: Config, f: Frame, cache: Store<State>, ledger: BudgetLedger, txn: Txn<State>,
                       t: Ticket, admitted: seq<Candidate>, found: seq<Option<State>>, work: seq<nat>, remainingBefore: Option<nat>,
                       round: nat, w: Weather, ghost pos: Position)
    returns (g: Frame, end: End)
    requires Represents(f, cache, ledger, pos) && OpenCacheTxn(txn, cache) && ValidConfig(c)
    requires t.keys == KeysOf(o, admitted) && UniqueKeys(t.keys) && "" !in t.keys
    requires |found| == |t.keys|
    requires forall i | 0 <= i < |t.keys| :: found[i] == if t.keys[i] in pos.values then Some(pos.values[t.keys[i]]) else None
    requires |work| == |Missing(t.keys, pos.values)| && ledger.reservedUnits == Total(work)
    requires remainingBefore.Some? ==> Total(work) <= remainingBefore.value
    modifies cache, ledger, txn
    ensures Reaches(g, cache, ledger, end, EvaluateOf(k, o, c, pos, t, admitted, work, round, w))
  {
    hide ResolveOf, Total, Missing, At, Staged, Resolved, UniqueKeys, EvaluateRange;
    var missing := MissingSlots(found, t.keys, pos.values);
    var batch := Batch(o, At(admitted, missing), w.fault);
    var startedBefore := ledger.startedUnits;
    var states: seq<State> := [];
    MissingCovered(t.keys, pos.values);
    if missing != [] {
      var evaluation := EvaluateCandidates(batch, work, ledger, c, w.choose);
      if evaluation.Aborted? {
        var _ := RecordWasteAudit(remainingBefore, work, ledger.startedUnits - startedBefore, evaluation.postBoundary, evaluation.capacity);
        g, end := AbortEvaluation(c, f, cache, txn, t, evaluation.fault, w, pos);
        return;
      }
      states := evaluation.states;
    } else {
      NothingToEvaluate(batch, work);
    }
    var staged := Staged(At(t.keys, missing), states);
    StagedKeys(t.keys, missing, states);
    var resolved := ResolveStates(found, t.keys, missing, states, pos.values);
    g, end := ResolveStage(k, o, c, f, cache, ledger, txn, t, admitted, resolved, staged, missing != [], work, remainingBefore,
                           startedBefore, round, w, pos.(started := pos.started + Total(work)));
  }

  lemma NothingToEvaluate(b: Batch, work: seq<nat>)
    requires b.candidates == [] && work == []
    ensures EvaluateAll(b) == Values([]) && Total(work) == 0
  {
  }

  lemma StagedKeys(keys: seq<string>, missing: seq<nat>, states: seq<State>)
    requires "" !in keys && |missing| == |states| && forall i | 0 <= i < |missing| :: missing[i] < |keys|
    ensures "" !in Staged(At(keys, missing), states)
  {
    hide Staged;
    assert forall i | 0 <= i < |missing| :: At(keys, missing)[i] in keys;
  }

  /** The positions at which the lookup found nothing. */
  method MissingSlots(found: seq<Option<State>>, keys: seq<string>, ghost values: map<string, State>) returns (missing: seq<nat>)
    requires |found| == |keys|
    requires forall i | 0 <= i < |keys| :: found[i] == if keys[i] in values then Some(values[keys[i]]) else None
    ensures missing == Missing(keys, values)
  {
    missing := [];
    assert keys[..0] == [];
    for i := 0 to |found|
      invariant missing == Missing(keys[..i], values)
    {
      assert keys[..i + 1][..i] == keys[..i];
      if found[i].None? {
        missing := missing + [i];
      }
    }
    assert keys[..|found|] == keys;
  }

  /** How an aborted evaluation ends, by the class of its fault. */
  method AbortEvaluation(c: Config, f: Frame, cache: Store<State>, txn: Txn<State>, t: Ticket, fault: Fault, w: Weather, ghost pos: Position)
    returns (g: Frame, end: End)
    requires f.state == pos.state && f.digest == pos.digest && f.events == pos.events
    modifies txn
    ensures var s := EvaluationFails(c, pos, t, fault, w);
      end == s.end && g == Frame(s.position.state, s.position.digest, s.position.events)
      && s.position.values == pos.values && s.position.generation == pos.generation && !end.Continue?
  {
    if fault.TimeoutFault? && c.fixedWork.Some? {
      cache.Rollback(txn);
      g := LogPhase(f, t, ABORTED);
      return g, Fail(Reason.RuntimeContractError);
    }
    if fault.WorkerFault? {
      g, end := EndByRollback(f, cache, txn, t, w.rollbackFails, ABORTED, WorkerFailure);
      return;
    }
    if fault.TimeoutFault? {
      g, end := EndByRollback(f, cache, txn, t, w.rollbackFails, INTERRUPTED, Deadline);
      return;
    }
    cache.Rollback(txn);
    g := LogPhase(f, t, ABORTED);
    return g, Fail(ReasonOf(fault));
  }

  /** The work of each missing candidate, or `None` at one that is not positive. */
  method WorkUnits(o: Oracle, candidates: seq<Candidate>) returns (work: Option<seq<nat>>)
    ensures work == WorkOf(o, candidates)
  {
    var units: seq<nat> := [];
    for i := 0 to |candidates|
      invariant |units| == i && forall j | 0 <= j < i :: o.work(candidates[j]) > 0 && units[j] == o.work(candidates[j])
    {
      if o.work(candidates[i]) <= 0 {
        return None;
      }
      units := units + [o.work(candidates[i])];
    }
    assert units == WorkOf(o, candidates).value;
    return Some(units);
  }

  /** Begin, look up and reserve. */
  method ReserveStage(k: Kernel, o: Oracle, c: Config, f: Frame, cache: Store<State>, ledger: BudgetLedger, t: Ticket,
                      admitted: seq<Candidate>, round: nat, w: Weather, ghost pos: Position)
    returns (g: Frame, end: End)
    requires Represents(f, cache, ledger, pos) && ledger.reservedUnits == 0 && ledger.limit == c.fixedWork && ValidConfig(c)
    requires t.keys == KeysOf(o, admitted) && UniqueKeys(t.keys) && "" !in t.keys
    modifies cache, ledger
    ensures Reaches(g, cache, ledger, end, ReserveOf(k, o, c, pos, t, admitted, round, w))
  {
    hide EvaluateOf, Total, UniqueKeys, WorkOf, Missing, At;
    if w.beginFault.Some? {
      g := LogPhase(f, t, ABORTED);
      return g, Fail(ReasonOf(w.beginFault.value));
    }
    var txn := cache.Begin();
    if w.lookupFault.Some? {
      cache.Rollback(txn);
      g := LogPhase(f, t, ABORTED);
      return g, Fail(ReasonOf(w.lookupFault.value));
    }
    var found := cache.Lookup(t.keys);
    if w.staleLookup {
      g, end := EndByRollback(f, cache, txn, t, w.rollbackFails, INTERRUPTED, StaleSnapshot);
      return;
    }
    var missing := MissingSlots(found, t.keys, pos.values);
    var work := WorkUnits(o, At(admitted, missing));
    if work.None? {
      cache.Rollback(txn);
      var _ := ledger.ReleaseReserved();
      g := LogPhase(f, t, ABORTED);
      return g, Fail(Reason.RuntimeContractError);
    }
    var remainingBefore := ledger.Remaining();
    var reservation := ledger.Reserve(Total(work.value));
    if !reservation.granted {
      if w.rollbackFails {
        g, end := EndByRollback(f, cache, txn, t, true, INTERRUPTED, FixedWorkExhausted);
        return;
      }
      cache.Rollback(txn);
      g := f.(events := f.events + [PhaseEvent(t, INTERRUPTED).(startedWork := Value(reservation.startedAfter),
                detail := WorkDetail(reservation.requested, reservation.remainingAfter.value))]);
      return g, Finish(FixedWorkExhausted);
    }
    g := LogPhase(f, t, RESERVED);
    g := LogPhase(g, t, EVALUATING);
    g, end := EvaluateStage(k, o, c, g, cache, ledger, txn, t, admitted, found, work.value, remainingBefore, round, w,
                            Log(Log(pos, PhaseEvent(t, RESERVED)), PhaseEvent(t, EVALUATING)));
  }

  /** One round. */
  method RunRound(k: Kernel, o: Oracle, c: Config, f: Frame, cache: Store<State>, ledger: BudgetLedger, round: nat, w: Weather,
                  ghost pos: Position)
    returns (g: Frame, end: End)
    requires Represents(f, cache, ledger, pos) && ledger.reservedUnits == 0 && ledger.limit == c.fixedWork && ValidConfig(c)
    modifies cache, ledger
    ensures Reaches(g, cache, ledger, end, RoundOf(k, o, c, pos, round, w))
  {
    hide ReserveOf, AdmissionOf, UniqueKeys;
    if c.fixedWork.None? && w.expiredAtStart {
      return f, Finish(Deadline);
    }
    var proposed := k.propose(f.state, round);
    if proposed.None? {
      return f, Escape;
    }
    var candidates := proposed.value;
    if candidates == [] {
      return f, Finish(KernelExhausted);
    }
    if k.admissionLimit.Some? && k.admissionLimit.value <= 0 {
      return f, Escape;
    }
    var limit: Option<nat> := if k.admissionLimit.Some? then Some(k.admissionLimit.value as nat) else None;
    var admission := AdmitCandidates(o, candidates, limit);
    if admission.None? {
      return f, Escape;
    }
    var a := admission.value;
    AdmittedKeys(o, candidates, limit);
    g := f.(events := f.events + [ScreeningEvent(|candidates|, a, limit)]);
    ghost var screened := Log(pos, ScreeningEvent(|candidates|, a, limit));
    if a.admitted == [] {
      g := g.(events := g.events + [BARE.(name := RoundTerminated, detail := ReasonDetail(NoAdmissibleCandidates))]);
      return g, Finish(NoAdmissibleCandidates);
    }
    var t := Ticket(RoundName(round), f.digest, a.keys);
    g := LogPhase(g, t, PREPARED);
    g, end := ReserveStage(k, o, c, g, cache, ledger, t, a.admitted, round, w, Log(screened, PhaseEvent(t, PREPARED)));
  }

  datatype RunResult =
    | Returned(state: State, reason: Reason, trace: seq<Event>)
    | Thrown(reason: Reason, trace: seq<Event>)
    | Untraced

  function ResultOf(s: Step): RunResult
    requires !s.end.Continue?
  {
    match s.end
    case Finish(reason) => Returned(s.position.state, reason, TraceOf(s))
    case Fail(reason) => Thrown(reason, TraceOf(s))
    case Escape => Untraced
  }

  /** A run, with the cache it leaves behind.  The mode, the number of workers, the window and the order in which
      evaluations finish have no part in the result, the trace or the cache. */
  method Run(k: Kernel, o: Oracle, c: Config, initial: State, seed: nat, weather: nat -> Weather)
    returns (r: RunResult, cache: Store<State>)
    requires ValidConfig(c)
    ensures !RunOf(k, o, c, initial, seed, weather).end.Continue?
    ensures r == ResultOf(RunOf(k, o, c, initial, seed, weather)) && fresh(cache)
    ensures cache.values == RunOf(k, o, c, initial, seed, weather).position.values
    ensures cache.generation == RunOf(k, o, c, initial, seed, weather).position.generation
    ensures r.Returned? ==> o.validate(r.state).None?
    ensures forall key | key in cache.values :: o.validate(cache.values[key]).None?
  {
    hide RoundOf, StateFault;
    NothingInvalid(k, o, c, initial, seed, weather);
    EmittedTracesReplay(k, o, c, initial, seed, weather);
    cache := new Store();
    if StateFault(o, initial).Some? {
      return Untraced, cache;
    }
    var f := Frame(initial, o.digest(initial), [OpenEvent(seed, o.digest(initial))]);
    var ledger := new BudgetLedger(c.fixedWork);
    ghost var pos := StartOf(o, initial, seed);
    var round := 0;
    while round < c.maxRounds
      invariant round <= c.maxRounds && fresh(cache) && fresh(ledger) && ledger.limit == c.fixedWork
      invariant Represents(f, cache, ledger, pos) && ledger.reservedUnits == 0
      invariant RunFrom(k, o, c, StartOf(o, initial, seed), 0, weather) == RunFrom(k, o, c, pos, round, weather)
    {
      ghost var step := RoundOf(k, o, c, pos, round, weather(round));
      var end;
      f, end := RunRound(k, o, c, f, cache, ledger, round, weather(round), pos);
      match end {
        case Continue =>
        case Finish(reason) => return Returned(f.state, reason, f.events + [CloseEvent(reason)]), cache;
        case Fail(reason) => return Thrown(reason, f.events + [CloseEvent(reason)]), cache;
        case Escape => return Untraced, cache;
      }
      pos := step.position;
      round := round + 1;
    }
    return Returned(f.state, MaxRounds, f.events + [CloseEvent(MaxRounds)]), cache;
  }

  /** A run followed by the independent replay of its trace: every trace is accepted, the receipt names the state the run
      returns and counts the generations of its cache. */
  method RunAndReplay(k: Kernel, o: Oracle, c: Config, initial: State, seed: nat, weather: nat -> Weather, keyDigest: seq<string> -> string)
    returns (r: RunResult, receipt: Option<Receipt>, cache: Store<State>)
    requires ValidConfig(c) && KeysDetermine(o)
    ensures r.Untraced? || receipt.Some?
    ensures r.Returned? ==> receipt.value.finalDigest == o.digest(r.state)
    ensures (r.Returned? || (r.Thrown? && forall i: nat :: !Blind(weather(i).backend))) ==>
      receipt.value.finalGeneration == receipt.value.committed == cache.generation
    ensures (r.Returned? || (r.Thrown? && forall i: nat :: !Blind(weather(i).backend))) ==>
      Genuine(o, cache.values) && cache.values.Keys == PublishedKeys(r.trace)
  {
    hide RunFrom, WellFormedTrace, Genuine, Commits, VisibleDigest, PublishedKeys;
    r, cache := Run(k, o, c, initial, seed, weather);
    EmittedTracesReplay(k, o, c, initial, seed, weather);
    RunCache(k, o, c, initial, seed, weather);
    if r.Untraced? {
      return r, None, cache;
    }
    receipt := ReplayAggregateRefinement(r.trace, keyDigest);
  }

  lemma RunCache(k: Kernel, o: Oracle, c: Config, initial: State, seed: nat, weather: nat -> Weather)
    requires KeysDetermine(o) && !RunOf(k, o, c, initial, seed, weather).end.Continue?
    ensures var s := RunOf(k, o, c, initial, seed, weather);
      s.position.digest == o.digest(s.position.state)
    ensures var s := RunOf(k, o, c, initial, seed, weather);
      s.end.Finish? || (s.end.Fail? && forall i: nat :: !Blind(weather(i).backend)) ==>
        Genuine(o, s.position.values) && s.position.values.Keys == PublishedKeys(TraceOf(s))
  {
    hide RunFrom, KeysDetermine;
    var s := RunOf(k, o, c, initial, seed, weather);
    StartMatches(o, initial, seed);
    RunMatches(k, o, c, StartOf(o, initial, seed), 0, weather);
    if s.end.Finish? || s.end.Fail? { KeysGrow(s.position.events, CloseEvent(s.end.reason)); }
  }

  lemma StartMatches(o: Oracle, initial: State, seed: nat)
    ensures CacheMatches(o, StartOf(o, initial, seed))
  {
    assert StartOf(o, initial, seed).events[..0] == [];
  }
}
