/** When a round commits and when it fails validation, in terms of kernel, oracle and what happens from outside; and that
    nothing the oracle refuses is ever committed, cached or returned. */
module RoundOutcome {
  import opened Options
  import opened RuntimeContracts
  import opened Admission
  import opened WorkLedger
  import opened Evaluation
  import opened CacheStore
  import opened SemanticTrace
  import opened RoundNames
  import opened RoundModel
  import opened TraceCompleteness
  import opened CacheTransparency

  // ---- valid states ----------------------------------------------------------------------------------------

  /** The oracle accepts the state and names it properly. */
  predicate Usable(o: Oracle, s: State) { o.validate(s).None? && IsDigest(o.digest(s)) }

  /** The state of the run and all cached values are usable. */
  ghost predicate AllUsable(o: Oracle, pos: Position) {
    Usable(o, pos.state) && forall key | key in pos.values :: Usable(o, pos.values[key])
  }

  lemma FaultMeans(o: Oracle, s: State)
    ensures StateFault(o, s).None? <==> Usable(o, s)
    ensures o.validate(s).Some? ==> StateFault(o, s) == o.validate(s)
    ensures o.validate(s).None? && !Usable(o, s) ==> StateFault(o, s) == Some(ContractFault)
  {
  }

  /** The first state that is not usable decides. */
  lemma {:induction false} InvalidMeans(o: Oracle, states: seq<State>)
    ensures FirstInvalid(o, states).None? <==> forall i | 0 <= i < |states| :: Usable(o, states[i])
    ensures forall i | 0 <= i < |states| && !Usable(o, states[i]) && (forall j | 0 <= j < i :: Usable(o, states[j])) ::
      FirstInvalid(o, states) == if o.validate(states[i]).Some? then o.validate(states[i]) else Some(ContractFault)
  {
    hide StateFault, Usable;
    if states != [] {
      FaultMeans(o, states[0]);
      InvalidMeans(o, states[1..]);
      assert forall i | 0 < i < |states| :: states[i] == states[1..][i - 1];
      assert (forall i | 0 <= i < |states| :: Usable(o, states[i])) <==>
        Usable(o, states[0]) && forall i | 0 <= i < |states[1..]| :: Usable(o, states[1..][i]);
      forall i | 0 <= i < |states| && !Usable(o, states[i]) && (forall j | 0 <= j < i :: Usable(o, states[j]))
        ensures FirstInvalid(o, states) == if o.validate(states[i]).Some? then o.validate(states[i]) else Some(ContractFault)
      {
        if i > 0 {
          assert Usable(o, states[0]);
          assert forall j | 0 <= j < i - 1 :: states[1..][j] == states[j + 1];
          assert !Usable(o, states[1..][i - 1]);
        }
      }
    }
  }

  // ---- a round up to the resolved states ---------------------------------------------------------------------

  function LimitOf(k: Kernel): Option<nat> {
    if k.admissionLimit.Some? && k.admissionLimit.value > 0 then Some(k.admissionLimit.value as nat) else None
  }

  /** Nothing stands between the start of the round and the reservation of work for the admitted candidates. */
  ghost predicate Admits(k: Kernel, o: Oracle, c: Config, pos: Position, round: nat, w: Weather, candidates: seq<Candidate>, a: Admission) {
    && (c.fixedWork.None? ==> !w.expiredAtStart)
    && k.propose(pos.state, round) == Some(candidates) && candidates != []
    && (k.admissionLimit.Some? ==> k.admissionLimit.value > 0)
    && AdmissionOf(o, candidates, LimitOf(k)) == Some(a) && a.admitted != []
    && w.beginFault.None? && w.lookupFault.None? && !w.staleLookup
  }

  /** The candidates whose key the cache does not hold, in order. */
  function ToEvaluate(o: Oracle, pos: Position, admitted: seq<Candidate>): (m: seq<nat>)
    ensures forall j | 0 <= j < |m| :: m[j] < |admitted|
  {
    Missing(KeysOf(o, admitted), pos.values)
  }

  /** Their work is positive and within the limit, all of them evaluate, and no deadline passes. */
  ghost predicate Evaluates(o: Oracle, c: Config, pos: Position, w: Weather, admitted: seq<Candidate>) {
    var m := ToEvaluate(o, pos, admitted);
    && (forall j | 0 <= j < |m| :: o.work(admitted[m[j]]) > 0)
    && (forall j | 0 <= j < |m| :: w.fault(j).None? && o.evaluate(admitted[m[j]]).Evaluated?)
    && (forall work: seq<nat> | |work| == |m| && (forall j | 0 <= j < |m| :: work[j] == o.work(admitted[m[j]])) ::
          c.fixedWork.Some? && Total(work) > 0 ==> pos.started + Total(work) <= c.fixedWork.value)
    && (m != [] ==> w.observationFault.None?) && (c.fixedWork.None? ==> !w.expiredAfter)
  }

  /** Cached states where there are, and evaluations elsewhere. */
  ghost predicate ResolvedAs(o: Oracle, pos: Position, admitted: seq<Candidate>, resolved: seq<State>) {
    && |resolved| == |admitted|
    && (forall i | 0 <= i < |admitted| ::
          if o.key(admitted[i]) in pos.values then resolved[i] == pos.values[o.key(admitted[i])]
          else o.evaluate(admitted[i]) == Evaluated(resolved[i]))
  }

  /** The round comes to the validation of these states. */
  ghost predicate Resolves(k: Kernel, o: Oracle, c: Config, pos: Position, round: nat, w: Weather, admitted: seq<Candidate>, resolved: seq<State>) {
    && (exists candidates, a :: Admits(k, o, c, pos, round, w, candidates, a) && a.admitted == admitted)
    && Evaluates(o, c, pos, w, admitted) && ResolvedAs(o, pos, admitted, resolved)
  }

  ghost predicate CommitsAfter(n: nat, s: Step) {
    |s.position.events| > n && IsTxn(s.position.events[|s.position.events| - 1], COMMITTED)
  }

  /** The same state and cache after some more events. */
  predicate Later(pos: Position, later: Position) {
    && |later.events| > |pos.events| && later.state == pos.state && later.digest == pos.digest && later.values == pos.values
    && later.generation == pos.generation
  }

  /** Neither a commit nor a failed validation: the state and the cache stay. */
  ghost predicate Otherwise(pos: Position, s: Step) {
    !CommitsAfter(|pos.events|, s) && s.end != Finish(ValidationFailure) && (s.position == pos || Later(pos, s.position))
  }

  lemma ClosesOtherwise(later: Position, t: Ticket, w: Weather, p: Phase, reason: Reason, pos: Position)
    requires Later(pos, later) && !p.COMMITTED? && reason != ValidationFailure
    ensures Otherwise(pos, Abort(later, t, reason)) && Otherwise(pos, RollBack(later, t, w, p, reason))
    ensures Otherwise(pos, Close(later, t, p, Finish(reason)))
  {
  }

  /** All staged states are among the resolved ones. */
  ghost predicate StagedFrom(staged: map<string, State>, resolved: seq<State>) {
    forall key | key in staged :: staged[key] in resolved
  }

  lemma WorkMeans(o: Oracle, c: Config, pos: Position, admitted: seq<Candidate>)
    ensures var m := ToEvaluate(o, pos, admitted); var work := WorkOf(o, At(admitted, m));
      && (work.Some? <==> forall j | 0 <= j < |m| :: o.work(admitted[m[j]]) > 0)
      && (work.Some? ==>
            ((c.fixedWork.Some? && Total(work.value) > RemainingWork(c, pos.started))
             <==> !forall other: seq<nat> | |other| == |m| && (forall j | 0 <= j < |m| :: other[j] == o.work(admitted[m[j]])) ::
                    c.fixedWork.Some? && Total(other) > 0 ==> pos.started + Total(other) <= c.fixedWork.value))
  {
    hide Total;
    var m := ToEvaluate(o, pos, admitted);
    var work := WorkOf(o, At(admitted, m));
    if work.Some? {
      forall other: seq<nat> | |other| == |m| && (forall j | 0 <= j < |m| :: other[j] == o.work(admitted[m[j]]))
        ensures other == work.value
      {
      }
    }
  }

  /** The evaluation of the missing candidates, seen from each of them. */
  lemma EvaluationMeans(o: Oracle, pos: Position, w: Weather, admitted: seq<Candidate>)
    ensures var m := ToEvaluate(o, pos, admitted);
      EvaluateAll(Batch(o, At(admitted, m), w.fault)).Values?
      <==> forall j | 0 <= j < |m| :: w.fault(j).None? && o.evaluate(admitted[m[j]]).Evaluated?
  {
    hide EvaluateRange;
    var m := ToEvaluate(o, pos, admitted);
    var b := Batch(o, At(admitted, m), w.fault);
    FirstFailureWins(b, |m|);
    forall j | 0 <= j < |m| ensures OutcomeAt(b, j).Evaluated? <==> w.fault(j).None? && o.evaluate(admitted[m[j]]).Evaluated? {
      assert b.candidates[j] == admitted[m[j]];
    }
  }

  ghost predicate AllEvaluate(o: Oracle, pos: Position, w: Weather, admitted: seq<Candidate>) {
    var m := ToEvaluate(o, pos, admitted);
    forall j | 0 <= j < |m| :: w.fault(j).None? && o.evaluate(admitted[m[j]]).Evaluated?
  }

  ghost predicate NoneTooLate(o: Oracle, c: Config, pos: Position, w: Weather, admitted: seq<Candidate>) {
    (ToEvaluate(o, pos, admitted) != [] ==> w.observationFault.None?) && (c.fixedWork.None? ==> !w.expiredAfter)
  }

  /** With all evaluations and no deadline in the way, the round comes to the resolved states. */
  lemma EvaluateComes(k: Kernel, o: Oracle, c: Config, pos: Position, mid: Position, t: Ticket, admitted: seq<Candidate>,
                      work: seq<nat>, round: nat, w: Weather)
    returns (resolved: seq<State>, later: Position, staged: map<string, State>)
    requires Later(pos, mid) && t.keys == KeysOf(o, admitted) && UniqueKeys(t.keys)
    requires AllEvaluate(o, pos, w, admitted) && NoneTooLate(o, c, pos, w, admitted)
    ensures ResolvedAs(o, pos, admitted, resolved) && Later(pos, later) && StagedFrom(staged, resolved)
    ensures later.started == mid.started + Total(work)
    ensures EvaluateOf(k, o, c, mid, t, admitted, work, round, w) == ValidateOf(k, o, later, t, admitted, resolved, staged, round, w)
  {
    hide EvaluateRange, Staged, Resolved, UniqueKeys, ValidateOf, Total, ResolvedAs, StagedFrom, EvaluateAll, AllEvaluate;
    EvaluationMeans(o, pos, w, admitted);
    var m := ToEvaluate(o, pos, admitted);
    assert EvaluateAll(Batch(o, At(admitted, m), w.fault)).Values? by { EvaluatesAll(o, pos, w, admitted); }
    var states := EvaluateAll(Batch(o, At(admitted, m), w.fault)).states;
    StagedMeans(o, pos, admitted, w.fault, states);
    staged := Staged(At(t.keys, m), states);
    resolved := Resolved(t.keys, pos.values, staged);
    later := mid.(started := mid.started + Total(work));
  }

  lemma EvaluatesAll(o: Oracle, pos: Position, w: Weather, admitted: seq<Candidate>)
    ensures AllEvaluate(o, pos, w, admitted) <==> EvaluateAll(Batch(o, At(admitted, ToEvaluate(o, pos, admitted)), w.fault)).Values?
  {
    hide EvaluateAll;
    EvaluationMeans(o, pos, w, admitted);
  }

  lemma StagedMeans(o: Oracle, pos: Position, admitted: seq<Candidate>, fault: nat -> Option<Fault>, states: seq<State>)
    requires UniqueKeys(KeysOf(o, admitted))
    requires EvaluateAll(Batch(o, At(admitted, ToEvaluate(o, pos, admitted)), fault)) == Values(states)
    ensures |states| == |ToEvaluate(o, pos, admitted)|
    ensures var keys := KeysOf(o, admitted); var staged := Staged(At(keys, ToEvaluate(o, pos, admitted)), states);
      && (forall i | 0 <= i < |keys| :: keys[i] in pos.values || keys[i] in staged)
      && ResolvedAs(o, pos, admitted, Resolved(keys, pos.values, staged)) && StagedFrom(staged, Resolved(keys, pos.values, staged))
  {
    hide EvaluateRange, Staged, UniqueKeys;
    var keys := KeysOf(o, admitted);
    var staged := Staged(At(keys, ToEvaluate(o, pos, admitted)), states);
    StagedGenuine(o, admitted, pos.values, fault, states);
    forall i | 0 <= i < |keys| ensures keys[i] in pos.values || keys[i] in staged { assert o.key(admitted[i]) == keys[i]; }
    var resolved := Resolved(keys, pos.values, staged);
    forall key | key in staged ensures staged[key] in resolved {
      var i :| 0 <= i < |admitted| && o.key(admitted[i]) == key;
      assert resolved[i] == staged[key];
    }
  }

  lemma EvaluateStops(k: Kernel, o: Oracle, c: Config, pos: Position, mid: Position, t: Ticket, admitted: seq<Candidate>,
                      work: seq<nat>, round: nat, w: Weather)
    requires Later(pos, mid) && t.keys == KeysOf(o, admitted) && UniqueKeys(t.keys)
    requires !(AllEvaluate(o, pos, w, admitted) && NoneTooLate(o, c, pos, w, admitted))
    ensures Otherwise(pos, EvaluateOf(k, o, c, mid, t, admitted, work, round, w))
  {
    hide EvaluateRange, Staged, UniqueKeys, ValidateOf, Total, Otherwise;
    EvaluationMeans(o, pos, w, admitted);
    var later := mid.(started := mid.started + Total(work));
    forall q, reason | q == mid || q == later
      ensures reason != ValidationFailure ==>
        (Otherwise(pos, Abort(q, t, reason)) && Otherwise(pos, RollBack(q, t, w, ABORTED, reason))
         && Otherwise(pos, RollBack(q, t, w, INTERRUPTED, reason)))
    {
      if reason != ValidationFailure {
        ClosesOtherwise(q, t, w, ABORTED, reason, pos);
        ClosesOtherwise(q, t, w, INTERRUPTED, reason, pos);
      }
    }
  }

  ghost predicate Affordable(o: Oracle, c: Config, pos: Position, admitted: seq<Candidate>) {
    var m := ToEvaluate(o, pos, admitted);
    && (forall j | 0 <= j < |m| :: o.work(admitted[m[j]]) > 0)
    && (forall work: seq<nat> | |work| == |m| && (forall j | 0 <= j < |m| :: work[j] == o.work(admitted[m[j]])) ::
          c.fixedWork.Some? && Total(work) > 0 ==> pos.started + Total(work) <= c.fixedWork.value)
  }

  lemma EvaluatesParts(o: Oracle, c: Config, pos: Position, w: Weather, admitted: seq<Candidate>)
    ensures Evaluates(o, c, pos, w, admitted) <==>
      Affordable(o, c, pos, admitted) && AllEvaluate(o, pos, w, admitted) && NoneTooLate(o, c, pos, w, admitted)
  {
  }

  /** The work of the candidates to evaluate. */
  ghost predicate WorkFor(o: Oracle, pos: Position, admitted: seq<Candidate>, work: seq<nat>) {
    |work| == |ToEvaluate(o, pos, admitted)|
    && forall j | 0 <= j < |work| :: work[j] == o.work(admitted[ToEvaluate(o, pos, admitted)[j]])
  }

  /** What a reservation decides. */
  lemma ReserveDecides(k: Kernel, o: Oracle, c: Config, pos: Position, mid: Position, t: Ticket, admitted: seq<Candidate>, round: nat, w: Weather)
    requires Later(pos, mid) && mid.started == pos.started && t.keys == KeysOf(o, admitted)
    requires w.beginFault.None? && w.lookupFault.None? && !w.staleLookup
    ensures !Affordable(o, c, pos, admitted) ==> Otherwise(pos, ReserveOf(k, o, c, mid, t, admitted, round, w))
    ensures Affordable(o, c, pos, admitted) ==>
      exists work: seq<nat> :: WorkFor(o, pos, admitted, work) && ReserveOf(k, o, c, mid, t, admitted, round, w)
        == EvaluateOf(k, o, c, Log(Log(mid, PhaseEvent(t, RESERVED)), PhaseEvent(t, EVALUATING)), t, admitted, work, round, w)
  {
    hide EvaluateOf, Total, Otherwise, Missing;
    WorkMeans(o, c, pos, admitted);
    ClosesOtherwise(mid, t, w, ABORTED, Reason.RuntimeContractError, pos);
    ClosesOtherwise(mid, t, w, ABORTED, RuntimeException, pos);
    var work := WorkOf(o, At(admitted, ToEvaluate(o, pos, admitted)));
    if work.Some? {
      ExhaustedOtherwise(pos, mid, t, Total(work.value), RemainingWork(c, pos.started));
      if !(c.fixedWork.Some? && Total(work.value) > RemainingWork(c, pos.started)) {
        assert WorkFor(o, pos, admitted, work.value);
        assert ReserveOf(k, o, c, mid, t, admitted, round, w)
          == EvaluateOf(k, o, c, Log(Log(mid, PhaseEvent(t, RESERVED)), PhaseEvent(t, EVALUATING)), t, admitted, work.value, round, w);
      }
    }
  }

  lemma ExhaustedOtherwise(pos: Position, mid: Position, t: Ticket, needed: nat, remaining: nat)
    requires Later(pos, mid)
    ensures Otherwise(pos, Step(Log(mid, PhaseEvent(t, INTERRUPTED).(startedWork := Value(pos.started),
                                                                              detail := WorkDetail(needed, remaining))),
                                         Finish(FixedWorkExhausted)))
  {
  }

  lemma ReserveFaults(k: Kernel, o: Oracle, c: Config, pos: Position, mid: Position, t: Ticket, admitted: seq<Candidate>, round: nat, w: Weather)
    requires Later(pos, mid) && |t.keys| == |admitted| && !(w.beginFault.None? && w.lookupFault.None? && !w.staleLookup)
    ensures Otherwise(pos, ReserveOf(k, o, c, mid, t, admitted, round, w))
  {
    hide EvaluateOf, Otherwise, Missing, WorkOf;
    if w.beginFault.Some? { ClosesOtherwise(mid, t, w, ABORTED, ReasonOf(w.beginFault.value), pos); }
    if w.lookupFault.Some? { ClosesOtherwise(mid, t, w, ABORTED, ReasonOf(w.lookupFault.value), pos); }
    ClosesOtherwise(mid, t, w, INTERRUPTED, StaleSnapshot, pos);
  }

  /** What a round does with the candidates proposed. */
  lemma RoundDecides(k: Kernel, o: Oracle, c: Config, pos: Position, round: nat, w: Weather)
    ensures (exists candidates, a :: Admits(k, o, c, pos, round, w, candidates, a)) ==>
      exists candidates, a, mid: Position, t: Ticket ::
        && Admits(k, o, c, pos, round, w, candidates, a) && t.keys == KeysOf(o, a.admitted) && UniqueKeys(t.keys)
        && Later(pos, mid) && mid.started == pos.started
        && RoundOf(k, o, c, pos, round, w) == ReserveOf(k, o, c, mid, t, a.admitted, round, w)
    ensures !(exists candidates, a :: Admits(k, o, c, pos, round, w, candidates, a)) ==> Otherwise(pos, RoundOf(k, o, c, pos, round, w))
  {
    hide ReserveOf, AdmissionOf, UniqueKeys;
    if (c.fixedWork.None? ==> !w.expiredAtStart) && k.propose(pos.state, round).Some? && (k.admissionLimit.Some? ==> k.admissionLimit.value > 0) {
      var candidates := k.propose(pos.state, round).value;
      AdmittedKeys(o, candidates, LimitOf(k));
      var a := AdmissionOf(o, candidates, LimitOf(k));
      if candidates != [] && a.Some? && a.value.admitted != [] {
        var t := Ticket(RoundName(round), pos.digest, KeysOf(o, a.value.admitted));
        var mid := Log(Log(pos, ScreeningEvent(|candidates|, a.value, LimitOf(k))), PhaseEvent(t, PREPARED));
        assert RoundOf(k, o, c, pos, round, w) == ReserveOf(k, o, c, mid, t, a.value.admitted, round, w);
        if w.beginFault.None? && w.lookupFault.None? && !w.staleLookup {
          assert Admits(k, o, c, pos, round, w, candidates, a.value);
        } else {
          ReserveFaults(k, o, c, pos, mid, t, a.value.admitted, round, w);
        }
      }
    }
  }

  /** A round that comes to its resolved states goes on by validating them, and any other neither commits nor fails
      validation. */
  lemma RoundResolves(k: Kernel, o: Oracle, c: Config, pos: Position, round: nat, w: Weather)
    ensures (exists admitted, resolved :: Resolves(k, o, c, pos, round, w, admitted, resolved)) ==>
      exists admitted, resolved, later: Position, t: Ticket, staged ::
        && Resolves(k, o, c, pos, round, w, admitted, resolved) && Later(pos, later) && StagedFrom(staged, resolved)
        && RoundOf(k, o, c, pos, round, w) == ValidateOf(k, o, later, t, admitted, resolved, staged, round, w)
    ensures !(exists admitted, resolved :: Resolves(k, o, c, pos, round, w, admitted, resolved)) ==>
      Otherwise(pos, RoundOf(k, o, c, pos, round, w))
  {
    hide RoundOf, Evaluates, Affordable, AllEvaluate, NoneTooLate, Admits, Otherwise, ResolvedAs, StagedFrom, ValidateOf, EvaluateOf, ReserveOf,
         UniqueKeys;
    RoundDecides(k, o, c, pos, round, w);
    if exists candidates, a :: Admits(k, o, c, pos, round, w, candidates, a) {
      var candidates, a, mid: Position, t: Ticket :|
        && Admits(k, o, c, pos, round, w, candidates, a) && t.keys == KeysOf(o, a.admitted) && UniqueKeys(t.keys)
        && Later(pos, mid) && mid.started == pos.started
        && RoundOf(k, o, c, pos, round, w) == ReserveOf(k, o, c, mid, t, a.admitted, round, w);
      FaultFree(k, o, c, pos, round, w, candidates, a);
      ReserveDecides(k, o, c, pos, mid, t, a.admitted, round, w);
      EvaluatesParts(o, c, pos, w, a.admitted);
      OneAdmission(k, o, c, pos, round, w, candidates, a);
      if Affordable(o, c, pos, a.admitted) {
        var work: seq<nat> :| ReserveOf(k, o, c, mid, t, a.admitted, round, w)
          == EvaluateOf(k, o, c, Log(Log(mid, PhaseEvent(t, RESERVED)), PhaseEvent(t, EVALUATING)), t, a.admitted, work, round, w);
        var begun := Log(Log(mid, PhaseEvent(t, RESERVED)), PhaseEvent(t, EVALUATING));
        if AllEvaluate(o, pos, w, a.admitted) && NoneTooLate(o, c, pos, w, a.admitted) {
          var resolved, later, staged := EvaluateComes(k, o, c, pos, begun, t, a.admitted, work, round, w);
          assert Resolves(k, o, c, pos, round, w, a.admitted, resolved);
        } else {
          EvaluateStops(k, o, c, pos, begun, t, a.admitted, work, round, w);
        }
      }
    }
  }

  lemma FaultFree(k: Kernel, o: Oracle, c: Config, pos: Position, round: nat, w: Weather, candidates: seq<Candidate>, a: Admission)
    requires Admits(k, o, c, pos, round, w, candidates, a)
    ensures w.beginFault.None? && w.lookupFault.None? && !w.staleLookup
  {
  }

  /** Candidates, admission and resolved states are determined. */
  lemma OneAdmission(k: Kernel, o: Oracle, c: Config, pos: Position, round: nat, w: Weather, candidates: seq<Candidate>, a: Admission)
    requires Admits(k, o, c, pos, round, w, candidates, a)
    ensures forall candidates', a' :: Admits(k, o, c, pos, round, w, candidates', a') ==> a' == a
  {
    hide AdmissionOf;
  }

  lemma OneResolution(k: Kernel, o: Oracle, c: Config, pos: Position, round: nat, w: Weather, admitted: seq<Candidate>, resolved: seq<State>,
                      admitted': seq<Candidate>, resolved': seq<State>)
    requires Resolves(k, o, c, pos, round, w, admitted, resolved) && Resolves(k, o, c, pos, round, w, admitted', resolved')
    ensures admitted == admitted' && resolved == resolved'
  {
    hide Admits, Evaluates;
    var candidates, a :| Admits(k, o, c, pos, round, w, candidates, a) && a.admitted == admitted;
    OneAdmission(k, o, c, pos, round, w, candidates, a);
    forall i | 0 <= i < |admitted| ensures resolved[i] == resolved'[i] { }
  }

  // ---- what becomes of the resolved states -------------------------------------------------------------------

  /** The first resolved state that is not usable makes the oracle raise a ValueError. */
  predicate FailsValidation(o: Oracle, resolved: seq<State>) {
    exists i | 0 <= i < |resolved| :: o.validate(resolved[i]) == Some(ValueFault) && forall j | 0 <= j < i :: Usable(o, resolved[j])
  }

  /** The kernel decides for a usable state that is the old one or one of the resolved ones, by their digests, and the
      store makes the commit visible. */
  ghost predicate Decides(k: Kernel, o: Oracle, pos: Position, round: nat, w: Weather, admitted: seq<Candidate>, resolved: seq<State>, next: State) {
    && (forall s | s in resolved :: Usable(o, s))
    && k.decide(pos.state, admitted, resolved, round) == Evaluated(next) && Usable(o, next)
    && (o.digest(next) == pos.digest || exists s | s in resolved :: o.digest(s) == o.digest(next))
    && w.backend.refuses.None? && w.backend.publishes && !w.backend.snapshotFails
  }

  lemma ValidateDecides(k: Kernel, o: Oracle, pos: Position, later: Position, t: Ticket, admitted: seq<Candidate>, resolved: seq<State>,
                        staged: map<string, State>, round: nat, w: Weather)
    requires Later(pos, later)
    ensures var s := ValidateOf(k, o, later, t, admitted, resolved, staged, round, w);
      && (s.end == Finish(ValidationFailure) <==> FailsValidation(o, resolved) && !w.rollbackFails)
      && (s.end == Finish(ValidationFailure) ==>
            s.position == Log(later, PhaseEvent(t, ABORTED)))
      && (CommitsAfter(|pos.events|, s) <==> exists next :: Decides(k, o, pos, round, w, admitted, resolved, next))
      && (forall next | CommitsAfter(|pos.events|, s) && Decides(k, o, pos, round, w, admitted, resolved, next) ::
            s.position.state == next && s.position.values == pos.values + staged && s.position.generation == pos.generation + 1)
  {
    hide FirstInvalid, Usable, StateFault, IsTxn;
    InvalidMeans(o, resolved);
    FirstBad(o, resolved);
    assert forall i | 0 <= i < |resolved| :: resolved[i] in resolved;
    PhaseIsTxn(t, ABORTED);
    PhaseIsTxn(t, INTERRUPTED);
    PhaseIsTxn(t, VALIDATED);
    if FirstInvalid(o, resolved).None? {
      PublishDecides(k, o, pos, Log(later, PhaseEvent(t, VALIDATED)), t, admitted, resolved, staged, round, w);
    }
  }

  /** If not all are usable there is a first that is not. */
  lemma {:induction false} FirstBad(o: Oracle, states: seq<State>)
    ensures FirstInvalid(o, states) == Some(ValueFault) <==> FailsValidation(o, states)
  {
    hide Usable, StateFault;
    if states != [] {
      var rest := states[1..];
      FaultMeans(o, states[0]);
      FaultUsable(o, states[0]);
      FirstBad(o, rest);
      assert forall i | 0 < i < |states| :: states[i] == rest[i - 1];
      if FailsValidation(o, rest) && Usable(o, states[0]) {
        var i :| 0 <= i < |rest| && o.validate(rest[i]) == Some(ValueFault) && forall j | 0 <= j < i :: Usable(o, rest[j]);
        assert o.validate(states[i + 1]) == Some(ValueFault) && forall j | 0 <= j < i + 1 :: Usable(o, states[j]);
      }
      if FailsValidation(o, states) && Usable(o, states[0]) {
        var i :| 0 <= i < |states| && o.validate(states[i]) == Some(ValueFault) && forall j | 0 <= j < i :: Usable(o, states[j]);
        assert i > 0;
        assert o.validate(rest[i - 1]) == Some(ValueFault) && forall j | 0 <= j < i - 1 :: Usable(o, rest[j]);
      }
    }
  }

  lemma FaultUsable(o: Oracle, s: State)
    ensures Usable(o, s) ==> o.validate(s).None?
  {
  }

  lemma PublishDecides(k: Kernel, o: Oracle, pos: Position, later: Position, t: Ticket, admitted: seq<Candidate>, resolved: seq<State>,
                       staged: map<string, State>, round: nat, w: Weather)
    requires Later(pos, later) && forall s | s in resolved :: Usable(o, s)
    ensures var s := PublishOf(k, o, later, t, admitted, resolved, staged, round, w);
      && s.end != Finish(ValidationFailure)
      && (CommitsAfter(|pos.events|, s) <==> exists next :: Decides(k, o, pos, round, w, admitted, resolved, next))
      && (forall next | CommitsAfter(|pos.events|, s) && Decides(k, o, pos, round, w, admitted, resolved, next) ::
            s.position.state == next && s.position.values == pos.values + staged && s.position.generation == pos.generation + 1)
  {
    hide Usable, StateFault, IsTxn, CommitOf, ReasonOf;
    PhaseIsTxn(t, ABORTED);
    match k.decide(pos.state, admitted, resolved, round) {
      case Raised(_) =>
      case Evaluated(next) =>
        FaultMeans(o, next);
        CommitDecides(o, pos, later, t, next, staged, w);
        assert forall other :: Decides(k, o, pos, round, w, admitted, resolved, other) ==> other == next;
        var s := PublishOf(k, o, later, t, admitted, resolved, staged, round, w);
        if StateFault(o, next).Some? {
          assert s == Abort(later, t, ReasonOf(StateFault(o, next).value));
        } else if o.digest(next) != pos.digest && !(exists s | s in resolved :: o.digest(s) == o.digest(next)) {
          assert s == Abort(later, t, Reason.RuntimeContractError);
        } else {
          assert CommitsAfter(|pos.events|, s) <==> Decides(k, o, pos, round, w, admitted, resolved, next);
        }
    }
  }

  lemma CommitDecides(o: Oracle, pos: Position, later: Position, t: Ticket, next: State, staged: map<string, State>, w: Weather)
    requires Later(pos, later)
    ensures var s := CommitOf(o, later, t, next, staged, w);
      && s.end != Finish(ValidationFailure)
      && (CommitsAfter(|pos.events|, s) <==> w.backend.refuses.None? && w.backend.publishes && !w.backend.snapshotFails)
      && (CommitsAfter(|pos.events|, s) ==>
            s.position.state == next && s.position.values == pos.values + staged && s.position.generation == pos.generation + 1)
  {
    hide IsTxn;
    PhaseIsTxn(t, ABORTED);
    PhaseIsTxn(t, INTERRUPTED);
    var repaired := VerdictFor(w.backend).Repaired?;
    CommitIsTxn(t, o.digest(next), later.generation + 1, later.started, |staged|, repaired);
  }

  // ---- the round -------------------------------------------------------------------------------------------

  /** A round commits if and only if it resolves usable states and the kernel's decision for one of them, or for the old
      state, reaches a store that shows it; it then has that state, and all the staged ones are resolved ones. */
  lemma CommitsExactly(k: Kernel, o: Oracle, c: Config, pos: Position, round: nat, w: Weather)
    ensures var s := RoundOf(k, o, c, pos, round, w);
      && (CommitsAfter(|pos.events|, s) <==> exists admitted, resolved, next ::
            Resolves(k, o, c, pos, round, w, admitted, resolved) && Decides(k, o, pos, round, w, admitted, resolved, next))
      && (forall admitted, resolved, next | Resolves(k, o, c, pos, round, w, admitted, resolved)
            && Decides(k, o, pos, round, w, admitted, resolved, next) ::
            s.position.state == next && s.position.generation == pos.generation + 1
            && forall key | key in s.position.values :: key in pos.values || s.position.values[key] in resolved)
  {
    hide RoundOf, Resolves, Decides, ValidateOf, CommitsAfter, IsTxn;
    RoundResolves(k, o, c, pos, round, w);
    if exists admitted, resolved :: Resolves(k, o, c, pos, round, w, admitted, resolved) {
      var admitted, resolved, later: Position, t: Ticket, staged :|
        && Resolves(k, o, c, pos, round, w, admitted, resolved) && Later(pos, later) && StagedFrom(staged, resolved)
        && RoundOf(k, o, c, pos, round, w) == ValidateOf(k, o, later, t, admitted, resolved, staged, round, w);
      ValidateDecides(k, o, pos, later, t, admitted, resolved, staged, round, w);
      forall admitted', resolved' | Resolves(k, o, c, pos, round, w, admitted', resolved') ensures admitted' == admitted && resolved' == resolved {
        OneResolution(k, o, c, pos, round, w, admitted, resolved, admitted', resolved');
      }
    }
  }

  /** A round ends with a validation failure if and only if the first resolved state that is not usable makes the oracle
      raise a ValueError, and the rollback succeeds; it then is aborted, with the state and the cache it began with. */
  lemma ValidationFailsExactly(k: Kernel, o: Oracle, c: Config, pos: Position, round: nat, w: Weather)
    ensures var s := RoundOf(k, o, c, pos, round, w);
      && (s.end == Finish(ValidationFailure) <==> !w.rollbackFails && exists admitted, resolved ::
            Resolves(k, o, c, pos, round, w, admitted, resolved) && FailsValidation(o, resolved))
      && (s.end == Finish(ValidationFailure) ==>
            && |s.position.events| > |pos.events| && IsTxn(s.position.events[|s.position.events| - 1], ABORTED)
            && s.position.state == pos.state && s.position.values == pos.values && s.position.generation == pos.generation)
  {
    hide RoundOf, Resolves, ValidateOf, FailsValidation, IsTxn;
    RoundResolves(k, o, c, pos, round, w);
    if exists admitted, resolved :: Resolves(k, o, c, pos, round, w, admitted, resolved) {
      var admitted, resolved, later: Position, t: Ticket, staged :|
        && Resolves(k, o, c, pos, round, w, admitted, resolved) && Later(pos, later) && StagedFrom(staged, resolved)
        && RoundOf(k, o, c, pos, round, w) == ValidateOf(k, o, later, t, admitted, resolved, staged, round, w);
      ValidateDecides(k, o, pos, later, t, admitted, resolved, staged, round, w);
      PhaseIsTxn(t, ABORTED);
      forall admitted', resolved' | Resolves(k, o, c, pos, round, w, admitted', resolved') ensures resolved' == resolved {
        OneResolution(k, o, c, pos, round, w, admitted, resolved, admitted', resolved');
      }
    }
  }

  // ---- the run ---------------------------------------------------------------------------------------------

  /** What a commit leaves behind is usable, even if the store hides it. */
  lemma CommitUsable(o: Oracle, pos: Position, later: Position, t: Ticket, next: State, staged: map<string, State>, resolved: seq<State>, w: Weather)
    requires AllUsable(o, pos) && Later(pos, later) && Usable(o, next)
    requires StagedFrom(staged, resolved) && forall s | s in resolved :: Usable(o, s)
    ensures AllUsable(o, CommitOf(o, later, t, next, staged, w).position)
  {
    hide Usable;
  }

  lemma ValidateUsable(k: Kernel, o: Oracle, pos: Position, later: Position, t: Ticket, admitted: seq<Candidate>, resolved: seq<State>,
                       staged: map<string, State>, round: nat, w: Weather)
    requires AllUsable(o, pos) && Later(pos, later) && StagedFrom(staged, resolved)
    ensures AllUsable(o, ValidateOf(k, o, later, t, admitted, resolved, staged, round, w).position)
  {
    hide Usable, StateFault, CommitOf, FirstInvalid;
    InvalidMeans(o, resolved);
    if FirstInvalid(o, resolved).None? {
      assert forall s | s in resolved :: Usable(o, s);
      match k.decide(pos.state, admitted, resolved, round) {
        case Raised(_) =>
        case Evaluated(next) =>
          FaultMeans(o, next);
          if Usable(o, next) {
            CommitUsable(o, pos, Log(later, PhaseEvent(t, VALIDATED)), t, next, staged, resolved, w);
          }
      }
    }
  }

  lemma RoundUsable(k: Kernel, o: Oracle, c: Config, pos: Position, round: nat, w: Weather)
    requires AllUsable(o, pos)
    ensures AllUsable(o, RoundOf(k, o, c, pos, round, w).position)
  {
    hide RoundOf, Resolves, ValidateOf, Usable, StagedFrom;
    RoundResolves(k, o, c, pos, round, w);
    if exists admitted, resolved :: Resolves(k, o, c, pos, round, w, admitted, resolved) {
      var admitted, resolved, later: Position, t: Ticket, staged :|
        && Resolves(k, o, c, pos, round, w, admitted, resolved) && Later(pos, later) && StagedFrom(staged, resolved)
        && RoundOf(k, o, c, pos, round, w) == ValidateOf(k, o, later, t, admitted, resolved, staged, round, w);
      ValidateUsable(k, o, pos, later, t, admitted, resolved, staged, round, w);
    }
  }

  lemma {:induction false} RunUsable(k: Kernel, o: Oracle, c: Config, pos: Position, round: nat, weather: nat -> Weather)
    requires AllUsable(o, pos)
    ensures AllUsable(o, RunFrom(k, o, c, pos, round, weather).position)
    decreases c.maxRounds - round
  {
    hide RoundOf, AllUsable;
    if round < c.maxRounds {
      RoundUsable(k, o, c, pos, round, weather(round));
      var step := RoundOf(k, o, c, pos, round, weather(round));
      if step.end.Continue? { RunUsable(k, o, c, step.position, round + 1, weather); }
    }
  }

  /** Whatever happens, the state a run has and every value in its cache are accepted by the oracle and named properly; a
      run whose initial state is not raises at once, and leaves no trace. */
  lemma NothingInvalid(k: Kernel, o: Oracle, c: Config, initial: State, seed: nat, weather: nat -> Weather)
    ensures var s := RunOf(k, o, c, initial, seed, weather);
      && (Usable(o, initial) ==> AllUsable(o, s.position))
      && (!Usable(o, initial) ==> s.end.Escape? && s.position.values == map[] && s.position.generation == 0)
  {
    hide RunFrom, Usable;
    FaultMeans(o, initial);
    if Usable(o, initial) { RunUsable(k, o, c, StartOf(o, initial, seed), 0, weather); }
  }
}
