/** Every ordinary end of a round has exactly its cause, and is logged as such. */
module RoundExits {
  import opened Options
  import opened RuntimeContracts
  import opened Admission
  import opened WorkLedger
  import opened Evaluation
  import opened CacheStore
  import opened SemanticTrace
  import opened RoundNames
  import opened RoundModel
  import opened TraceCompleteness
  import opened CacheTransparency
  import opened RoundOutcome

  /** The kernel decides for a usable state that is the old one or a resolved one; all resolved ones are usable. */
  ghost predicate Chooses(k: Kernel, o: Oracle, pos: Position, round: nat, admitted: seq<Candidate>, resolved: seq<State>, next: State) {
    && (forall s | s in resolved :: Usable(o, s))
    && k.decide(pos.state, admitted, resolved, round) == Evaluated(next) && Usable(o, next)
    && (o.digest(next) == pos.digest || exists s | s in resolved :: o.digest(s) == o.digest(next))
  }

  /** What the evaluation of the `j`-th missing candidate raises. */
  function Raises(o: Oracle, pos: Position, w: Weather, admitted: seq<Candidate>, j: nat): Option<Fault>
    requires j < |ToEvaluate(o, pos, admitted)|
  {
    if w.fault(j).Some? then w.fault(j)
    else match o.evaluate(admitted[ToEvaluate(o, pos, admitted)[j]])
         case Evaluated(_) => None
         case Raised(f) => Some(f)
  }

  /** The first missing candidate whose evaluation fails raises this. */
  ghost predicate FailsWith(o: Oracle, pos: Position, w: Weather, admitted: seq<Candidate>, f: Fault) {
    exists j | 0 <= j < |ToEvaluate(o, pos, admitted)| ::
      Raises(o, pos, w, admitted, j) == Some(f) && forall i | 0 <= i < j :: Raises(o, pos, w, admitted, i).None?
  }

  /** The round ends in an ordinary way, with this phase logged last. */
  predicate Ends(pos: Position, s: Step, reason: Reason, p: Phase) {
    && s.end == Finish(reason) && Later(pos, s.position) && IsTxn(s.position.events[|s.position.events| - 1], p)
  }

  // ---- the commit ------------------------------------------------------------------------------------------

  lemma CommitEnds(o: Oracle, pos: Position, later: Position, t: Ticket, next: State, staged: map<string, State>, w: Weather)
    requires Later(pos, later)
    ensures var s := CommitOf(o, later, t, next, staged, w);
      && (s.end == Finish(StaleSnapshot) <==> w.backend.refuses == Some(RefusedStale) && !w.rollbackFails)
      && (s.end == Finish(CacheWriteFailure) <==> w.backend.refuses == Some(RefusedCache) && !w.rollbackFails)
      && (s.end == Finish(StaleSnapshot) ==> Ends(pos, s, StaleSnapshot, INTERRUPTED))
      && (s.end == Finish(CacheWriteFailure) ==> Ends(pos, s, CacheWriteFailure, ABORTED))
      && (s.end.Finish? ==> s.end.reason == StaleSnapshot || s.end.reason == CacheWriteFailure)
      && (s.end.Continue? <==> w.backend.refuses.None? && w.backend.publishes && !w.backend.snapshotFails
                               && w.backend.receiptGood && w.backend.closes)
      && (s.end == Fail(CacheOutcomeUnknown) ==> w.backend.refuses.None? && w.backend.closes && !EndsCommitted(s.position))
  {
    hide IsTxn;
    PhaseIsTxn(t, ABORTED);
    PhaseIsTxn(t, INTERRUPTED);
  }

  lemma PublishEnds(k: Kernel, o: Oracle, pos: Position, later: Position, t: Ticket, admitted: seq<Candidate>, resolved: seq<State>,
                    staged: map<string, State>, round: nat, w: Weather)
    requires Later(pos, later) && forall s | s in resolved :: Usable(o, s)
    ensures var s := PublishOf(k, o, later, t, admitted, resolved, staged, round, w);
      && (forall next | Chooses(k, o, pos, round, admitted, resolved, next) :: s == CommitOf(o, later, t, next, staged, w))
      && ((forall next :: !Chooses(k, o, pos, round, admitted, resolved, next)) ==> s.end.Fail?)
  {
    hide Usable, StateFault, CommitOf, ReasonOf;
    match k.decide(pos.state, admitted, resolved, round) {
      case Raised(_) =>
      case Evaluated(next) =>
        FaultMeans(o, next);
        if StateFault(o, next).None? && (o.digest(next) == pos.digest || exists s | s in resolved :: o.digest(s) == o.digest(next)) {
          assert Chooses(k, o, pos, round, admitted, resolved, next);
        }
    }
  }

  // ---- the validation --------------------------------------------------------------------------------------

  /** How a round ends that has come to its resolved states. */
  lemma ValidateEnds(k: Kernel, o: Oracle, pos: Position, later: Position, t: Ticket, admitted: seq<Candidate>, resolved: seq<State>,
                     staged: map<string, State>, round: nat, w: Weather)
    requires Later(pos, later)
    ensures var s := ValidateOf(k, o, later, t, admitted, resolved, staged, round, w);
      var chosen := exists next :: Chooses(k, o, pos, round, admitted, resolved, next);
      && (s.end == Finish(StaleSnapshot) <==> chosen && w.backend.refuses == Some(RefusedStale) && !w.rollbackFails)
      && (s.end == Finish(CacheWriteFailure) <==> chosen && w.backend.refuses == Some(RefusedCache) && !w.rollbackFails)
      && (s.end == Finish(ValidationFailure) <==> FailsValidation(o, resolved) && !w.rollbackFails)
      && (s.end == Finish(StaleSnapshot) ==> Ends(pos, s, StaleSnapshot, INTERRUPTED))
      && (s.end == Finish(CacheWriteFailure) ==> Ends(pos, s, CacheWriteFailure, ABORTED))
      && (s.end == Finish(ValidationFailure) ==> Ends(pos, s, ValidationFailure, ABORTED))
      && (s.end.Finish? ==> s.end.reason == StaleSnapshot || s.end.reason == CacheWriteFailure || s.end.reason == ValidationFailure)
      && (s.end.Continue? <==> chosen && w.backend.refuses.None? && w.backend.publishes && !w.backend.snapshotFails
                               && w.backend.receiptGood && w.backend.closes)
  {
    hide Usable, StateFault, IsTxn, CommitOf, PublishOf, FirstInvalid, Ends, FailsValidation, Chooses;
    InvalidMeans(o, resolved);
    FirstBad(o, resolved);
    FailureEnds(pos, later, t, w);
    if FirstInvalid(o, resolved).None? {
      assert forall s | s in resolved :: Usable(o, s);
      var logged := Log(later, PhaseEvent(t, VALIDATED));
      PublishEnds(k, o, pos, logged, t, admitted, resolved, staged, round, w);
      if next :| Chooses(k, o, pos, round, admitted, resolved, next) { CommitEnds(o, pos, logged, t, next, staged, w); }
    } else {
      NotChosen(k, o, pos, round, admitted, resolved);
    }
  }

  lemma NotChosen(k: Kernel, o: Oracle, pos: Position, round: nat, admitted: seq<Candidate>, resolved: seq<State>)
    requires FirstInvalid(o, resolved).Some?
    ensures forall next :: !Chooses(k, o, pos, round, admitted, resolved, next)
  {
    hide Usable, FirstInvalid;
    InvalidMeans(o, resolved);
    assert forall i | 0 <= i < |resolved| :: resolved[i] in resolved;
  }

  lemma FailureEnds(pos: Position, later: Position, t: Ticket, w: Weather)
    requires Later(pos, later)
    ensures !w.rollbackFails ==> Ends(pos, RollBack(later, t, w, ABORTED, ValidationFailure), ValidationFailure, ABORTED)
    ensures w.rollbackFails ==> RollBack(later, t, w, ABORTED, ValidationFailure).end.Fail?
  {
  }

  // ---- the evaluation --------------------------------------------------------------------------------------

  lemma FirstRaise(o: Oracle, pos: Position, w: Weather, admitted: seq<Candidate>)
    ensures var b := Batch(o, At(admitted, ToEvaluate(o, pos, admitted)), w.fault);
      match EvaluateAll(b)
      case Values(_) => AllEvaluate(o, pos, w, admitted) && forall f :: !FailsWith(o, pos, w, admitted, f)
      case Failure(f) => !AllEvaluate(o, pos, w, admitted) && forall g :: FailsWith(o, pos, w, admitted, g) <==> g == f
  {
    hide EvaluateRange, Missing;
    var m := ToEvaluate(o, pos, admitted);
    var b := Batch(o, At(admitted, m), w.fault);
    FirstFailureWins(b, |m|);
    forall j | 0 <= j < |m|
      ensures OutcomeAt(b, j) == (if Raises(o, pos, w, admitted, j).Some? then Raised(Raises(o, pos, w, admitted, j).value) else o.evaluate(admitted[m[j]]))
      ensures OutcomeAt(b, j).Evaluated? <==> Raises(o, pos, w, admitted, j).None?
    {
      assert b.candidates[j] == admitted[m[j]];
    }
    EvaluatesAll(o, pos, w, admitted);
    match EvaluateAll(b) {
      case Values(_) =>
      case Failure(f) =>
        var i :| 0 <= i < |m| && OutcomeAt(b, i) == Raised(f) && forall j | 0 <= j < i :: OutcomeAt(b, j).Evaluated?;
        assert Raises(o, pos, w, admitted, i) == Some(f);
        assert FailsWith(o, pos, w, admitted, f);
        forall g | FailsWith(o, pos, w, admitted, g) ensures g == f {
          var k :| 0 <= k < |m| && Raises(o, pos, w, admitted, k) == Some(g) && forall j | 0 <= j < k :: Raises(o, pos, w, admitted, j).None?;
          assert k == i;
        }
    }
  }

  /** Without fixed work, an evaluation is timed out, or the deadline is found passed after all of them. */
  ghost predicate RunsLate(o: Oracle, c: Config, pos: Position, w: Weather, admitted: seq<Candidate>) {
    && c.fixedWork.None?
    && (|| FailsWith(o, pos, w, admitted, TimeoutFault)
        || (AllEvaluate(o, pos, w, admitted) && w.expiredAfter && (ToEvaluate(o, pos, admitted) == [] || w.observationFault.None?)))
  }

  /** How the evaluation of an admitted batch ends if something is in its way. */
  lemma EvaluateEnds(k: Kernel, o: Oracle, c: Config, pos: Position, mid: Position, t: Ticket, admitted: seq<Candidate>, work: seq<nat>,
                     round: nat, w: Weather)
    requires Later(pos, mid) && t.keys == KeysOf(o, admitted) && UniqueKeys(t.keys)
    requires !(AllEvaluate(o, pos, w, admitted) && NoneTooLate(o, c, pos, w, admitted))
    ensures var s := EvaluateOf(k, o, c, mid, t, admitted, work, round, w);
      && (s.end == Finish(WorkerFailure) <==> FailsWith(o, pos, w, admitted, WorkerFault) && !w.rollbackFails)
      && (s.end == Finish(Deadline) <==> !w.rollbackFails && RunsLate(o, c, pos, w, admitted))
      && (s.end == Finish(WorkerFailure) ==> Ends(pos, s, WorkerFailure, ABORTED))
      && (s.end == Finish(Deadline) ==> Ends(pos, s, Deadline, INTERRUPTED))
      && (s.end.Finish? ==> s.end.reason == WorkerFailure || s.end.reason == Deadline) && !s.end.Continue?
  {
    hide EvaluateRange, EvaluateAll, Staged, UniqueKeys, ValidateOf, Total, Ends, FailsWith, AllEvaluate, IsTxn, Missing, Resolved;
    FirstRaise(o, pos, w, admitted);
    RollsBack(pos, mid, t, w, ABORTED, WorkerFailure);
    RollsBack(pos, mid, t, w, INTERRUPTED, Deadline);
    RollsBack(pos, mid.(started := mid.started + Total(work)), t, w, INTERRUPTED, Deadline);
  }

  lemma RollsBack(pos: Position, later: Position, t: Ticket, w: Weather, p: Phase, reason: Reason)
    requires Later(pos, later)
    ensures var s := RollBack(later, t, w, p, reason); if w.rollbackFails then s.end.Fail? else Ends(pos, s, reason, p)
  {
  }

  // ---- the round -------------------------------------------------------------------------------------------

  /** The round has candidates and prepares a transaction for those admitted. */
  ghost predicate Prepares(k: Kernel, o: Oracle, c: Config, pos: Position, round: nat, w: Weather, admitted: seq<Candidate>) {
    && (c.fixedWork.None? ==> !w.expiredAtStart)
    && k.propose(pos.state, round).Some? && k.propose(pos.state, round).value != []
    && (k.admissionLimit.Some? ==> k.admissionLimit.value > 0)
    && AdmissionOf(o, k.propose(pos.state, round).value, LimitOf(k)).Some?
    && AdmissionOf(o, k.propose(pos.state, round).value, LimitOf(k)).value.admitted == admitted
  }

  predicate NoFaultBefore(w: Weather) { w.beginFault.None? && w.lookupFault.None? && !w.staleLookup }

  /** More work than is left is needed, all of it positive. */
  ghost predicate TooMuchWork(o: Oracle, c: Config, pos: Position, admitted: seq<Candidate>) {
    !Affordable(o, c, pos, admitted) && forall j | 0 <= j < |ToEvaluate(o, pos, admitted)| :: o.work(admitted[ToEvaluate(o, pos, admitted)[j]]) > 0
  }

  lemma ReserveEnds(k: Kernel, o: Oracle, c: Config, pos: Position, mid: Position, t: Ticket, admitted: seq<Candidate>, round: nat, w: Weather)
    requires Later(pos, mid) && mid.started == pos.started && t.keys == KeysOf(o, admitted)
    requires !(NoFaultBefore(w) && Affordable(o, c, pos, admitted))
    ensures var s := ReserveOf(k, o, c, mid, t, admitted, round, w);
      && (s.end == Finish(StaleSnapshot) <==> w.beginFault.None? && w.lookupFault.None? && w.staleLookup && !w.rollbackFails)
      && (s.end == Finish(FixedWorkExhausted) <==> NoFaultBefore(w) && TooMuchWork(o, c, pos, admitted) && !w.rollbackFails)
      && (s.end == Finish(StaleSnapshot) ==> Ends(pos, s, StaleSnapshot, INTERRUPTED))
      && (s.end == Finish(FixedWorkExhausted) ==> Ends(pos, s, FixedWorkExhausted, INTERRUPTED))
      && (s.end.Finish? ==> s.end.reason == StaleSnapshot || s.end.reason == FixedWorkExhausted) && !s.end.Continue?
  {
    hide EvaluateOf, Total, Missing, Ends, WorkOf;
    WorkMeans(o, c, pos, admitted);
    RollsBack(pos, mid, t, w, INTERRUPTED, StaleSnapshot);
    var work := WorkOf(o, At(admitted, ToEvaluate(o, pos, admitted)));
    if work.Some? { ExhaustedEnds(pos, mid, t, Total(work.value), RemainingWork(c, pos.started)); }
  }

  lemma ExhaustedEnds(pos: Position, mid: Position, t: Ticket, needed: nat, remaining: nat)
    requires Later(pos, mid)
    ensures Ends(pos, Step(Log(mid, PhaseEvent(t, INTERRUPTED).(startedWork := Value(pos.started), detail := WorkDetail(needed, remaining))),
                           Finish(FixedWorkExhausted)), FixedWorkExhausted, INTERRUPTED)
  {
  }

  /** The candidates come to be evaluated. */
  ghost predicate Reserves(k: Kernel, o: Oracle, c: Config, pos: Position, round: nat, w: Weather, admitted: seq<Candidate>) {
    Prepares(k, o, c, pos, round, w, admitted) && admitted != [] && NoFaultBefore(w) && Affordable(o, c, pos, admitted)
  }

  /** What makes a round end for a reason. */
  ghost predicate Cause(k: Kernel, o: Oracle, c: Config, pos: Position, round: nat, w: Weather, reason: Reason) {
    match reason
    case KernelExhausted => (c.fixedWork.None? ==> !w.expiredAtStart) && k.propose(pos.state, round) == Some([])
    case NoAdmissibleCandidates => Prepares(k, o, c, pos, round, w, [])
    case Deadline =>
      || (c.fixedWork.None? && w.expiredAtStart)
      || (!w.rollbackFails && exists admitted :: Reserves(k, o, c, pos, round, w, admitted) && RunsLate(o, c, pos, w, admitted))
    case FixedWorkExhausted =>
      !w.rollbackFails && NoFaultBefore(w)
      && exists admitted :: Prepares(k, o, c, pos, round, w, admitted) && admitted != [] && TooMuchWork(o, c, pos, admitted)
    case WorkerFailure =>
      !w.rollbackFails && exists admitted :: Reserves(k, o, c, pos, round, w, admitted) && FailsWith(o, pos, w, admitted, WorkerFault)
    case ValidationFailure =>
      !w.rollbackFails && exists admitted, resolved :: Resolves(k, o, c, pos, round, w, admitted, resolved) && FailsValidation(o, resolved)
    case StaleSnapshot =>
      !w.rollbackFails
      && (|| (w.beginFault.None? && w.lookupFault.None? && w.staleLookup
              && exists admitted :: Prepares(k, o, c, pos, round, w, admitted) && admitted != [])
          || (w.backend.refuses == Some(RefusedStale) && Chosen(k, o, c, pos, round, w)))
    case CacheWriteFailure => !w.rollbackFails && w.backend.refuses == Some(RefusedCache) && Chosen(k, o, c, pos, round, w)
    case _ => false
  }

  /** The round comes to a decision that may be committed. */
  ghost predicate Chosen(k: Kernel, o: Oracle, c: Config, pos: Position, round: nat, w: Weather) {
    exists admitted, resolved, next ::
      Resolves(k, o, c, pos, round, w, admitted, resolved) && Chooses(k, o, pos, round, admitted, resolved, next)
  }

  /** The phase logged when a round ends with an open transaction. */
  function PhaseFor(reason: Reason): Phase {
    if reason.WorkerFailure? || reason.ValidationFailure? || reason.CacheWriteFailure? then ABORTED else INTERRUPTED
  }

  /** A round without a transaction. */
  lemma PlainEnds(k: Kernel, o: Oracle, c: Config, pos: Position, round: nat, w: Weather, reason: Reason)
    requires !exists admitted :: Prepares(k, o, c, pos, round, w, admitted) && admitted != []
    ensures var s := RoundOf(k, o, c, pos, round, w);
      && (s.end == Finish(reason) <==> Cause(k, o, c, pos, round, w, reason)) && !s.end.Continue?
      && (s.end == Finish(reason) ==> (s.position == pos && (reason.Deadline? || reason.KernelExhausted?))
                                      || (reason.NoAdmissibleCandidates? && Later(pos, s.position)))
  {
    hide ReserveOf, AdmissionOf, Evaluates, ResolvedAs, Affordable, RunsLate, TooMuchWork, FailsWith;
    if k.propose(pos.state, round).Some? && (k.admissionLimit.Some? ==> k.admissionLimit.value > 0) {
      var a := AdmissionOf(o, k.propose(pos.state, round).value, LimitOf(k));
      assert a.Some? && Prepares(k, o, c, pos, round, w, a.value.admitted) ==> a.value.admitted == [];
    }
    forall admitted, resolved ensures !Resolves(k, o, c, pos, round, w, admitted, resolved) { ResolvesReserves(k, o, c, pos, round, w, admitted, resolved); }
  }

  lemma ResolvesReserves(k: Kernel, o: Oracle, c: Config, pos: Position, round: nat, w: Weather, admitted: seq<Candidate>, resolved: seq<State>)
    ensures Resolves(k, o, c, pos, round, w, admitted, resolved) <==>
      Reserves(k, o, c, pos, round, w, admitted) && AllEvaluate(o, pos, w, admitted) && NoneTooLate(o, c, pos, w, admitted)
      && ResolvedAs(o, pos, admitted, resolved)
  {
    hide AdmissionOf, Affordable, AllEvaluate, NoneTooLate, ResolvedAs, Evaluates;
    EvaluatesParts(o, c, pos, w, admitted);
    if Reserves(k, o, c, pos, round, w, admitted) {
      var candidates := k.propose(pos.state, round).value;
      assert Admits(k, o, c, pos, round, w, candidates, AdmissionOf(o, candidates, LimitOf(k)).value);
    }
  }

  lemma OneBatchPrepared(k: Kernel, o: Oracle, c: Config, pos: Position, round: nat, w: Weather, admitted: seq<Candidate>)
    requires Prepares(k, o, c, pos, round, w, admitted)
    ensures forall other :: Prepares(k, o, c, pos, round, w, other) ==> other == admitted
  {
  }

  lemma Prepared(k: Kernel, o: Oracle, c: Config, pos: Position, round: nat, w: Weather, admitted: seq<Candidate>) returns (mid: Position, t: Ticket)
    requires Prepares(k, o, c, pos, round, w, admitted) && admitted != []
    ensures t.keys == KeysOf(o, admitted) && UniqueKeys(t.keys) && Later(pos, mid) && mid.started == pos.started
    ensures RoundOf(k, o, c, pos, round, w) == ReserveOf(k, o, c, mid, t, admitted, round, w)
  {
    hide ReserveOf, AdmissionOf, UniqueKeys;
    var candidates := k.propose(pos.state, round).value;
    AdmittedKeys(o, candidates, LimitOf(k));
    var a := AdmissionOf(o, candidates, LimitOf(k)).value;
    t := Ticket(RoundName(round), pos.digest, KeysOf(o, a.admitted));
    mid := Log(Log(pos, ScreeningEvent(|candidates|, a, LimitOf(k))), PhaseEvent(t, PREPARED));
  }

  /** How a round with a transaction ends before its states are resolved. */
  lemma UnresolvedEnds(k: Kernel, o: Oracle, c: Config, pos: Position, round: nat, w: Weather, admitted: seq<Candidate>)
    requires Prepares(k, o, c, pos, round, w, admitted) && admitted != []
    requires !(Reserves(k, o, c, pos, round, w, admitted) && AllEvaluate(o, pos, w, admitted) && NoneTooLate(o, c, pos, w, admitted))
    ensures var s := RoundOf(k, o, c, pos, round, w);
      && (s.end == Finish(StaleSnapshot) <==> w.beginFault.None? && w.lookupFault.None? && w.staleLookup && !w.rollbackFails)
      && (s.end == Finish(FixedWorkExhausted) <==> NoFaultBefore(w) && TooMuchWork(o, c, pos, admitted) && !w.rollbackFails)
      && (s.end == Finish(WorkerFailure) <==> Reserves(k, o, c, pos, round, w, admitted) && FailsWith(o, pos, w, admitted, WorkerFault) && !w.rollbackFails)
      && (s.end == Finish(Deadline) <==> Reserves(k, o, c, pos, round, w, admitted) && RunsLate(o, c, pos, w, admitted) && !w.rollbackFails)
      && (s.end.Finish? ==> Ends(pos, s, s.end.reason, PhaseFor(s.end.reason))) && !s.end.Continue?
      && (s.end.Finish? ==> s.end.reason == StaleSnapshot || s.end.reason == FixedWorkExhausted || s.end.reason == WorkerFailure
                            || s.end.reason == Deadline)
  {
    hide RoundOf, ReserveOf, EvaluateOf, Ends, Affordable, AllEvaluate, NoneTooLate, TooMuchWork, FailsWith, RunsLate, Prepares, UniqueKeys;
    var mid, t := Prepared(k, o, c, pos, round, w, admitted);
    if NoFaultBefore(w) && Affordable(o, c, pos, admitted) {
      ReserveDecides(k, o, c, pos, mid, t, admitted, round, w);
      var begun := Log(Log(mid, PhaseEvent(t, RESERVED)), PhaseEvent(t, EVALUATING));
      var work: seq<nat> :| ReserveOf(k, o, c, mid, t, admitted, round, w) == EvaluateOf(k, o, c, begun, t, admitted, work, round, w);
      EvaluateEnds(k, o, c, pos, begun, t, admitted, work, round, w);
      NotTooMuch(o, c, pos, admitted);
    } else {
      ReserveEnds(k, o, c, pos, mid, t, admitted, round, w);
    }
  }

  lemma NotTooMuch(o: Oracle, c: Config, pos: Position, admitted: seq<Candidate>)
    ensures Affordable(o, c, pos, admitted) ==> !TooMuchWork(o, c, pos, admitted)
  {
  }

  lemma NoFailure(o: Oracle, c: Config, pos: Position, w: Weather, admitted: seq<Candidate>)
    requires AllEvaluate(o, pos, w, admitted) && NoneTooLate(o, c, pos, w, admitted)
    ensures !RunsLate(o, c, pos, w, admitted) && forall f :: !FailsWith(o, pos, w, admitted, f)
  {
    FirstRaise(o, pos, w, admitted);
  }

  /** A round that comes to its resolved states. */
  lemma ResolvedEnds(k: Kernel, o: Oracle, c: Config, pos: Position, round: nat, w: Weather, admitted: seq<Candidate>)
    returns (resolved: seq<State>, work: seq<nat>)
    requires Reserves(k, o, c, pos, round, w, admitted) && AllEvaluate(o, pos, w, admitted) && NoneTooLate(o, c, pos, w, admitted)
    ensures Resolves(k, o, c, pos, round, w, admitted, resolved) && WorkFor(o, pos, admitted, work)
    ensures RoundOf(k, o, c, pos, round, w).position.started == pos.started + Total(work)
    ensures var s := RoundOf(k, o, c, pos, round, w);
      var chosen := exists next :: Chooses(k, o, pos, round, admitted, resolved, next);
      && (s.end == Finish(StaleSnapshot) <==> chosen && w.backend.refuses == Some(RefusedStale) && !w.rollbackFails)
      && (s.end == Finish(CacheWriteFailure) <==> chosen && w.backend.refuses == Some(RefusedCache) && !w.rollbackFails)
      && (s.end == Finish(ValidationFailure) <==> FailsValidation(o, resolved) && !w.rollbackFails)
      && (s.end.Finish? ==> Ends(pos, s, s.end.reason, PhaseFor(s.end.reason)))
      && (s.end.Finish? ==> s.end.reason == StaleSnapshot || s.end.reason == CacheWriteFailure || s.end.reason == ValidationFailure)
      && (s.end.Continue? <==> chosen && w.backend.refuses.None? && w.backend.publishes && !w.backend.snapshotFails
                               && w.backend.receiptGood && w.backend.closes)
  {
    hide RoundOf, ReserveOf, EvaluateOf, ValidateOf, Ends, Affordable, AllEvaluate, NoneTooLate, Prepares, UniqueKeys, Chooses, FailsValidation, ResolvedAs;
    var mid, t := Prepared(k, o, c, pos, round, w, admitted);
    ReserveDecides(k, o, c, pos, mid, t, admitted, round, w);
    var begun := Log(Log(mid, PhaseEvent(t, RESERVED)), PhaseEvent(t, EVALUATING));
    work :| WorkFor(o, pos, admitted, work)
      && ReserveOf(k, o, c, mid, t, admitted, round, w) == EvaluateOf(k, o, c, begun, t, admitted, work, round, w);
    var later, staged;
    resolved, later, staged := EvaluateComes(k, o, c, pos, begun, t, admitted, work, round, w);
    ValidateEnds(k, o, pos, later, t, admitted, resolved, staged, round, w);
    StartedStays(k, o, later, t, admitted, resolved, staged, round, w);
    ResolvesReserves(k, o, c, pos, round, w, admitted, resolved);
  }

  lemma StartedStays(k: Kernel, o: Oracle, later: Position, t: Ticket, admitted: seq<Candidate>, resolved: seq<State>,
                     staged: map<string, State>, round: nat, w: Weather)
    ensures ValidateOf(k, o, later, t, admitted, resolved, staged, round, w).position.started == later.started
  {
    hide FirstInvalid, StateFault;
  }

  /** A round with a transaction. */
  lemma TransactionEnds(k: Kernel, o: Oracle, c: Config, pos: Position, round: nat, w: Weather, reason: Reason, admitted: seq<Candidate>)
    requires Prepares(k, o, c, pos, round, w, admitted) && admitted != []
    ensures var s := RoundOf(k, o, c, pos, round, w);
      && (s.end == Finish(reason) <==> Cause(k, o, c, pos, round, w, reason))
      && (s.end == Finish(reason) ==> Ends(pos, s, reason, PhaseFor(reason)))
      && (s.end.Continue? <==> Chosen(k, o, c, pos, round, w) && w.backend.refuses.None? && w.backend.publishes && !w.backend.snapshotFails
                               && w.backend.receiptGood && w.backend.closes)
  {
    hide RoundOf, Ends, Prepares, Affordable, AllEvaluate, NoneTooLate, TooMuchWork, FailsWith, RunsLate, FailsValidation, Chooses,
         Resolves, ResolvedAs, Usable;
    OneBatchPrepared(k, o, c, pos, round, w, admitted);
    PreparedHas(k, o, c, pos, round, w, admitted);
    forall other, resolved | Resolves(k, o, c, pos, round, w, other, resolved)
      ensures other == admitted && Reserves(k, o, c, pos, round, w, admitted) && AllEvaluate(o, pos, w, admitted) && NoneTooLate(o, c, pos, w, admitted)
    {
      ResolvesReserves(k, o, c, pos, round, w, other, resolved);
    }
    if Reserves(k, o, c, pos, round, w, admitted) && AllEvaluate(o, pos, w, admitted) && NoneTooLate(o, c, pos, w, admitted) {
      var resolved, _ := ResolvedEnds(k, o, c, pos, round, w, admitted);
      NoFailure(o, c, pos, w, admitted);
      NotTooMuch(o, c, pos, admitted);
      forall resolved' | Resolves(k, o, c, pos, round, w, admitted, resolved') ensures resolved' == resolved {
        OneResolution(k, o, c, pos, round, w, admitted, resolved, admitted, resolved');
      }
    } else {
      UnresolvedEnds(k, o, c, pos, round, w, admitted);
    }
  }

  lemma PreparedHas(k: Kernel, o: Oracle, c: Config, pos: Position, round: nat, w: Weather, admitted: seq<Candidate>)
    requires Prepares(k, o, c, pos, round, w, admitted)
    ensures (c.fixedWork.None? ==> !w.expiredAtStart) && k.propose(pos.state, round) != Some([])
  {
  }

  /** Every ordinary end of a round has exactly its cause; one with an open transaction is logged with its phase, and none
      changes the state or the cache. */
  lemma EndsExactly(k: Kernel, o: Oracle, c: Config, pos: Position, round: nat, w: Weather, reason: Reason)
    ensures var s := RoundOf(k, o, c, pos, round, w);
      && (s.end == Finish(reason) <==> Cause(k, o, c, pos, round, w, reason))
      && (s.end == Finish(reason) ==> s.position == pos || Later(pos, s.position))
      && (s.end == Finish(reason) && (exists admitted :: Prepares(k, o, c, pos, round, w, admitted) && admitted != []) ==>
            Ends(pos, s, reason, PhaseFor(reason)))
      && (s.end.Continue? <==> Chosen(k, o, c, pos, round, w) && w.backend.refuses.None? && w.backend.publishes && !w.backend.snapshotFails
                               && w.backend.receiptGood && w.backend.closes)
  {
    hide RoundOf, Prepares, Affordable, AllEvaluate, NoneTooLate, TooMuchWork, FailsWith, RunsLate, FailsValidation, Chooses,
         Resolves, ResolvedAs, Usable;
    if exists admitted :: Prepares(k, o, c, pos, round, w, admitted) && admitted != [] {
      var admitted :| Prepares(k, o, c, pos, round, w, admitted) && admitted != [];
      TransactionEnds(k, o, c, pos, round, w, reason, admitted);
    } else {
      PlainEnds(k, o, c, pos, round, w, reason);
      NeverChosen(k, o, c, pos, round, w);
    }
  }

  lemma NeverChosen(k: Kernel, o: Oracle, c: Config, pos: Position, round: nat, w: Weather)
    requires !exists admitted :: Prepares(k, o, c, pos, round, w, admitted) && admitted != []
    ensures !Chosen(k, o, c, pos, round, w)
  {
    hide Prepares, Chooses, Resolves, AllEvaluate, NoneTooLate, ResolvedAs, Affordable;
    forall admitted, resolved ensures !Resolves(k, o, c, pos, round, w, admitted, resolved) { ResolvesReserves(k, o, c, pos, round, w, admitted, resolved); }
  }

  // ---- exceptions ------------------------------------------------------------------------------------------

  /** How an exception is named when it ends the run. */
  function NameOf(f: Fault): Reason {
    match f
    case ContractFault => Reason.RuntimeContractError
    case ValueFault => Reason.RuntimeContractError
    case TypeFault => Reason.RuntimeContractError
    case _ => RuntimeException
  }

  /** The round fails by this exception, with the transaction aborted and state and cache as they were. */
  predicate FailsBy(pos: Position, s: Step, f: Fault) {
    s.end == Fail(NameOf(f)) && Later(pos, s.position) && IsTxn(s.position.events[|s.position.events| - 1], ABORTED)
  }

  lemma AbortFails(pos: Position, later: Position, t: Ticket, f: Fault)
    requires Later(pos, later)
    ensures FailsBy(pos, Abort(later, t, ReasonOf(f)), f)
  {
  }

  /** An exception when the transaction begins or an evaluation fails otherwise than by a worker or the clock, or when the
      kernel decides, ends the run under its name. */
  lemma ExceptionsEnd(k: Kernel, o: Oracle, c: Config, pos: Position, round: nat, w: Weather, admitted: seq<Candidate>, f: Fault)
    requires Prepares(k, o, c, pos, round, w, admitted) && admitted != []
    ensures w.beginFault == Some(f) || (w.beginFault.None? && w.lookupFault == Some(f)) ==> FailsBy(pos, RoundOf(k, o, c, pos, round, w), f)
    ensures NoFaultBefore(w) && Affordable(o, c, pos, admitted) && FailsWith(o, pos, w, admitted, f) && !f.WorkerFault? && !f.TimeoutFault? ==>
      FailsBy(pos, RoundOf(k, o, c, pos, round, w), f)
    ensures forall resolved | Resolves(k, o, c, pos, round, w, admitted, resolved) && (forall s | s in resolved :: Usable(o, s))
      && k.decide(pos.state, admitted, resolved, round) == Raised(f) :: FailsBy(pos, RoundOf(k, o, c, pos, round, w), f)
  {
    hide RoundOf, EvaluateOf, Affordable, FailsWith, Prepares, UniqueKeys, FailsBy, Resolves, Usable, WorkOf, Missing, ReasonOf;
    var mid, t := Prepared(k, o, c, pos, round, w, admitted);
    AbortFails(pos, mid, t, f);
    if NoFaultBefore(w) && Affordable(o, c, pos, admitted) && FailsWith(o, pos, w, admitted, f) && !f.WorkerFault? && !f.TimeoutFault? {
      ReserveDecides(k, o, c, pos, mid, t, admitted, round, w);
      var begun := Log(Log(mid, PhaseEvent(t, RESERVED)), PhaseEvent(t, EVALUATING));
      var work: seq<nat> :| ReserveOf(k, o, c, mid, t, admitted, round, w) == EvaluateOf(k, o, c, begun, t, admitted, work, round, w);
      EvaluationRaises(k, o, c, pos, begun, t, admitted, work, round, w, f);
    }
    forall resolved | Resolves(k, o, c, pos, round, w, admitted, resolved) && (forall s | s in resolved :: Usable(o, s))
      && k.decide(pos.state, admitted, resolved, round) == Raised(f)
      ensures FailsBy(pos, RoundOf(k, o, c, pos, round, w), f)
    {
      DecisionRaises(k, o, c, pos, round, w, admitted, resolved, f);
    }
  }

  lemma EvaluationRaises(k: Kernel, o: Oracle, c: Config, pos: Position, begun: Position, t: Ticket, admitted: seq<Candidate>, work: seq<nat>,
                         round: nat, w: Weather, f: Fault)
    requires Later(pos, begun) && t.keys == KeysOf(o, admitted) && FailsWith(o, pos, w, admitted, f) && !f.WorkerFault? && !f.TimeoutFault?
    ensures FailsBy(pos, EvaluateOf(k, o, c, begun, t, admitted, work, round, w), f)
  {
    hide EvaluateAll, FailsWith, FailsBy, Missing, ReasonOf;
    FirstRaise(o, pos, w, admitted);
    AbortFails(pos, begun, t, f);
  }

  lemma DecisionRaises(k: Kernel, o: Oracle, c: Config, pos: Position, round: nat, w: Weather, admitted: seq<Candidate>, resolved: seq<State>, f: Fault)
    requires Resolves(k, o, c, pos, round, w, admitted, resolved) && (forall s | s in resolved :: Usable(o, s))
    requires k.decide(pos.state, admitted, resolved, round) == Raised(f)
    ensures FailsBy(pos, RoundOf(k, o, c, pos, round, w), f)
  {
    hide RoundOf, Resolves, Usable, StagedFrom, FirstInvalid, FailsBy, ReasonOf;
    RoundResolves(k, o, c, pos, round, w);
    var admitted', resolved', later: Position, t: Ticket, staged :|
      && Resolves(k, o, c, pos, round, w, admitted', resolved') && Later(pos, later) && StagedFrom(staged, resolved')
      && RoundOf(k, o, c, pos, round, w) == ValidateOf(k, o, later, t, admitted', resolved', staged, round, w);
    OneResolution(k, o, c, pos, round, w, admitted, resolved, admitted', resolved');
    InvalidMeans(o, resolved);
    assert forall i | 0 <= i < |resolved| :: resolved[i] in resolved;
    AbortFails(pos, Log(later, PhaseEvent(t, VALIDATED)), t, f);
  }

  // ---- the work started --------------------------------------------------------------------------------------

  /** A round that goes on has started exactly the work of the candidates it evaluated. */
  lemma StartsItsWork(k: Kernel, o: Oracle, c: Config, pos: Position, round: nat, w: Weather, admitted: seq<Candidate>, work: seq<nat>)
    requires RoundOf(k, o, c, pos, round, w).end.Continue?
    requires Prepares(k, o, c, pos, round, w, admitted) && WorkFor(o, pos, admitted, work)
    ensures RoundOf(k, o, c, pos, round, w).position.started == pos.started + Total(work)
    ensures c.fixedWork.Some? && Total(work) > 0 ==> pos.started + Total(work) <= c.fixedWork.value
  {
    hide RoundOf, Prepares, AllEvaluate, NoneTooLate, Chooses, Resolves, ResolvedAs, Usable, Total, Missing;
    EndsExactly(k, o, c, pos, round, w, Deadline);
    var adm, res, next :| Resolves(k, o, c, pos, round, w, adm, res) && Chooses(k, o, pos, round, adm, res, next);
    ResolvesReserves(k, o, c, pos, round, w, adm, res);
    OneBatchPrepared(k, o, c, pos, round, w, admitted);
    var resolved, same := ResolvedEnds(k, o, c, pos, round, w, admitted);
    assert same == work;
  }

  /** With fixed work, a run never starts more than that. */
  lemma {:induction false} WithinLimit(k: Kernel, o: Oracle, c: Config, pos: Position, round: nat, weather: nat -> Weather)
    requires c.fixedWork.Some? && pos.started <= c.fixedWork.value
    ensures RunFrom(k, o, c, pos, round, weather).position.started <= c.fixedWork.value
    decreases c.maxRounds - round
  {
    hide RoundOf;
    if round < c.maxRounds {
      var step := RoundOf(k, o, c, pos, round, weather(round));
      RoundWithinLimit(k, o, c, pos, round, weather(round));
      if step.end.Continue? { WithinLimit(k, o, c, step.position, round + 1, weather); }
    }
  }

  lemma RoundWithinLimit(k: Kernel, o: Oracle, c: Config, pos: Position, round: nat, w: Weather)
    requires c.fixedWork.Some? && pos.started <= c.fixedWork.value
    ensures RoundOf(k, o, c, pos, round, w).position.started <= c.fixedWork.value
  {
    hide ReserveOf, AdmissionOf;
    if exists admitted :: Prepares(k, o, c, pos, round, w, admitted) && admitted != [] {
      var admitted :| Prepares(k, o, c, pos, round, w, admitted) && admitted != [];
      var mid, t := Prepared(k, o, c, pos, round, w, admitted);
      ReserveWithinLimit(k, o, c, mid, t, admitted, round, w);
    } else if k.propose(pos.state, round).Some? && (k.admissionLimit.Some? ==> k.admissionLimit.value > 0) {
      var a := AdmissionOf(o, k.propose(pos.state, round).value, LimitOf(k));
      assert a.Some? && Prepares(k, o, c, pos, round, w, a.value.admitted) ==> a.value.admitted == [];
    }
  }

  lemma ReserveWithinLimit(k: Kernel, o: Oracle, c: Config, mid: Position, t: Ticket, admitted: seq<Candidate>, round: nat, w: Weather)
    requires c.fixedWork.Some? && mid.started <= c.fixedWork.value && t.keys == KeysOf(o, admitted)
    ensures ReserveOf(k, o, c, mid, t, admitted, round, w).position.started <= c.fixedWork.value
  {
    hide EvaluateOf, Total, Missing, WorkOf;
    forall work: seq<nat>, q: Position | q.started == mid.started
      ensures EvaluateOf(k, o, c, q, t, admitted, work, round, w).position.started <= mid.started + Total(work)
    {
      EvaluateStarts(k, o, c, q, t, admitted, work, round, w);
    }
  }

  lemma EvaluateStarts(k: Kernel, o: Oracle, c: Config, q: Position, t: Ticket, admitted: seq<Candidate>, work: seq<nat>, round: nat, w: Weather)
    requires t.keys == KeysOf(o, admitted)
    ensures EvaluateOf(k, o, c, q, t, admitted, work, round, w).position.started <= q.started + Total(work)
  {
    hide EvaluateAll, Total, ValidateOf, Missing, Staged, Resolved;
    forall later, resolved, staged ensures ValidateOf(k, o, later, t, admitted, resolved, staged, round, w).position.started == later.started {
      StartedStays(k, o, later, t, admitted, resolved, staged, round, w);
    }
  }
}
