/** One run, round by round, as a function of kernel, oracle and what happens from outside.  Neither the evaluation
    mode nor the order in which evaluations finish occurs here. */
module RoundModel {
  import opened Options
  import opened RuntimeContracts
  import opened Admission
  import opened WorkLedger
  import opened Evaluation
  import opened CacheStore
  import opened SemanticTrace
  import opened RoundNames

  /** What happens from outside in one round.  `fault` strikes single evaluations; `choose` is the order in which
      evaluations finish. */
  datatype Weather = Weather(expiredAtStart: bool, beginFault: Option<Fault>, lookupFault: Option<Fault>, staleLookup: bool,
                             rollbackFails: bool, fault: nat -> Option<Fault>, choose: nat -> nat,
                             observationFault: Option<Fault>, expiredAfter: bool, backend: Backend)

  /** Everything a run carries from round to round. */
  datatype Position = Position(state: State, digest: string, values: map<string, State>, generation: nat, started: nat,
                               events: seq<Event>)

  /** A run goes on, ends with a result, ends with an exception and a trace, or with an exception alone. */
  datatype End = Continue | Finish(reason: Reason) | Fail(reason: Reason) | Escape

  datatype Step = Step(position: Position, end: End)

  datatype Ticket = Ticket(id: string, snapshot: string, keys: seq<string>)

  // ---- events ----------------------------------------------------------------------------------------------

  const BARE := Event(UnknownEvent, Absent, Absent, Absent, Absent, Absent, Absent, Absent, Absent, Absent, NoDetail)

  function OpenEvent(seed: nat, digest: string): Event {
    BARE.(name := RunOpen, stateDigest := Value(digest), detail := SeedDetail(seed))
  }

  function CloseEvent(reason: Reason): Event { BARE.(name := RunTerminated, detail := ReasonDetail(reason)) }

  function ScreeningEvent(proposed: nat, a: Admission, limit: Option<nat>): Event {
    BARE.(name := Screening, admitted := Value(|a.admitted|),
          detail := ScreeningDetail(proposed, a.screened, a.unique, a.admissible,
                                    if limit.Some? then limit.value else a.admissible, a.complete))
  }

  function PhaseEvent(t: Ticket, p: Phase): Event {
    BARE.(name := Transaction, txn := Value(t.id), phase := Value(p), snapshot := Value(t.snapshot), keys := Value(t.keys))
  }

  function CommitEvent(t: Ticket, digest: string, generation: nat, started: nat, writes: nat, repaired: bool): Event {
    PhaseEvent(t, COMMITTED).(stateDigest := Value(digest), generation := Value(generation), startedWork := Value(started),
                              detail := CommitDetail(writes, repaired))
  }

  function Log(pos: Position, e: Event): Position { pos.(events := pos.events + [e]) }

  // ---- ends of a transaction -------------------------------------------------------------------------------

  function ReasonOf(f: Fault): Reason {
    if f.ContractFault? || f.ValueFault? || f.TypeFault? then Reason.RuntimeContractError else RuntimeException
  }

  function Close(pos: Position, t: Ticket, p: Phase, end: End): Step { Step(Log(pos, PhaseEvent(t, p)), end) }

  function Abort(pos: Position, t: Ticket, reason: Reason): Step { Close(pos, t, ABORTED, Fail(reason)) }

  /** An ordinary end behind a rollback; if that fails, the failure is raised instead. */
  function RollBack(pos: Position, t: Ticket, w: Weather, p: Phase, reason: Reason): Step {
    if w.rollbackFails then Abort(pos, t, RuntimeException) else Close(pos, t, p, Finish(reason))
  }

  // ---- the stages ------------------------------------------------------------------------------------------

  /** The admitted candidates the cache does not hold, by position. */
  function Missing(keys: seq<string>, values: map<string, State>): (m: seq<nat>)
    ensures forall i | 0 <= i < |m| :: m[i] < |keys| && keys[m[i]] !in values
    ensures forall j | 0 <= j < |keys| && keys[j] !in values :: j in m
    ensures forall i, j | 0 <= i < j < |m| :: m[i] < m[j]
  {
    if keys == [] then []
    else
      var n := |keys| - 1;
      var front := Missing(keys[..n], values);
      assert forall j | 0 <= j < n :: keys[j] == keys[..n][j];
      if keys[n] in values then front else front + [n]
  }

  function At<T>(s: seq<T>, positions: seq<nat>): (r: seq<T>)
    requires forall i | 0 <= i < |positions| :: positions[i] < |s|
    ensures |r| == |positions| && forall i | 0 <= i < |r| :: r[i] == s[positions[i]]
  {
    seq(|positions|, i requires 0 <= i < |positions| => s[positions[i]])
  }

  /** New evaluations under their keys. */
  function Staged(keys: seq<string>, states: seq<State>): (m: map<string, State>)
    requires |keys| == |states|
    ensures forall k :: k in m <==> k in keys
  {
    if keys == [] then map[]
    else
      var n := |keys| - 1;
      assert forall k :: k in keys <==> k in keys[..n] || k == keys[n];
      Staged(keys[..n], states[..n])[keys[n] := states[n]]
  }

  /** The admitted states in order, cached or new. */
  function Resolved(keys: seq<string>, values: map<string, State>, staged: map<string, State>): (r: seq<State>)
    requires forall i | 0 <= i < |keys| :: keys[i] in values || keys[i] in staged
    ensures |r| == |keys|
    ensures forall i | 0 <= i < |r| :: r[i] == if keys[i] in values then values[keys[i]] else staged[keys[i]]
  {
    seq(|keys|, i requires 0 <= i < |keys| => if keys[i] in values then values[keys[i]] else staged[keys[i]])
  }

  function StateFault(o: Oracle, s: State): Option<Fault> {
    if o.validate(s).Some? then o.validate(s) else if IsDigest(o.digest(s)) then None else Some(ContractFault)
  }

  /** The fault of the first state that is not valid. */
  function FirstInvalid(o: Oracle, states: seq<State>): Option<Fault> {
    if states == [] then None
    else if StateFault(o, states[0]).Some? then StateFault(o, states[0])
    else FirstInvalid(o, states[1..])
  }

  /** Validated: decide, stage and commit. */
  function PublishOf(k: Kernel, o: Oracle, pos: Position, t: Ticket, admitted: seq<Candidate>, resolved: seq<State>,
                     staged: map<string, State>, round: nat, w: Weather): Step {
    match k.decide(pos.state, admitted, resolved, round)
    case Raised(f) => Abort(pos, t, ReasonOf(f))
    case Evaluated(next) =>
      if StateFault(o, next).Some? then Abort(pos, t, ReasonOf(StateFault(o, next).value))
      else if o.digest(next) != pos.digest && !(exists s | s in resolved :: o.digest(s) == o.digest(next)) then
        Abort(pos, t, Reason.RuntimeContractError)
      else CommitOf(o, pos, t, next, staged, w)
  }

  function CommitOf(o: Oracle, pos: Position, t: Ticket, next: State, staged: map<string, State>, w: Weather): Step {
    match w.backend.refuses
    case Some(RefusedStale) => RollBack(pos, t, w, INTERRUPTED, StaleSnapshot)
    case Some(RefusedCache) => RollBack(pos, t, w, ABORTED, CacheWriteFailure)
    case Some(RefusedOther(f)) => Abort(pos, t, ReasonOf(f))
    case None =>
      var after := if w.backend.publishes then pos.(values := pos.values + staged, generation := pos.generation + 1) else pos;
      var committed := after.(state := next, digest := o.digest(next));
      match VerdictFor(w.backend)
      case Confirmed =>
        Step(Log(committed, CommitEvent(t, o.digest(next), pos.generation + 1, pos.started, |staged|, false)), Continue)
      case Repaired =>
        Step(Log(committed, CommitEvent(t, o.digest(next), pos.generation + 1, pos.started, |staged|, true)),
             Fail(Reason.RuntimeContractError))
      case OutcomeUnknown =>
        Step(Log(after, PhaseEvent(t, INTERRUPTED).(cacheOutcome := Value(UNKNOWN_OUTCOME))), Fail(CacheOutcomeUnknown))
      case Unverified => Abort(after, t, Reason.RuntimeContractError)
  }

  /** How an aborted evaluation ends. */
  function EvaluationFails(c: Config, pos: Position, t: Ticket, f: Fault, w: Weather): Step {
    if f.TimeoutFault? && c.fixedWork.Some? then Abort(pos, t, Reason.RuntimeContractError)
    else if f.WorkerFault? then RollBack(pos, t, w, ABORTED, WorkerFailure)
    else if f.TimeoutFault? then RollBack(pos, t, w, INTERRUPTED, Deadline)
    else Abort(pos, t, ReasonOf(f))
  }

  /** Reserved and evaluating. */
  function EvaluateOf(k: Kernel, o: Oracle, c: Config, pos: Position, t: Ticket, admitted: seq<Candidate>, work: seq<nat>,
                      round: nat, w: Weather): Step
    requires |t.keys| == |admitted|
  {
    var missing := Missing(t.keys, pos.values);
    match EvaluateAll(Batch(o, At(admitted, missing), w.fault))
    case Failure(f) => EvaluationFails(c, pos, t, f, w)
    case Values(states) =>
      var staged := Staged(At(t.keys, missing), states);
      assert forall i | 0 <= i < |t.keys| && t.keys[i] !in pos.values :: t.keys[i] in At(t.keys, missing) by {
        forall i | 0 <= i < |t.keys| && t.keys[i] !in pos.values ensures t.keys[i] in At(t.keys, missing) {
          var j :| 0 <= j < |missing| && missing[j] == i;
          assert At(t.keys, missing)[j] == t.keys[i];
        }
      }
      ResolveOf(k, o, c, pos.(started := pos.started + Total(work)), t, admitted, missing != [], staged, round, w)
  }

  /** Evaluated: check the deadline and the states. */
  function ResolveOf(k: Kernel, o: Oracle, c: Config, pos: Position, t: Ticket, admitted: seq<Candidate>, observed: bool,
                     staged: map<string, State>, round: nat, w: Weather): Step
    requires forall i | 0 <= i < |t.keys| :: t.keys[i] in pos.values || t.keys[i] in staged
  {
    if observed && w.observationFault.Some? then Abort(pos, t, ReasonOf(w.observationFault.value))
    else if c.fixedWork.None? && w.expiredAfter then RollBack(pos, t, w, INTERRUPTED, Deadline)
    else ValidateOf(k, o, pos, t, admitted, Resolved(t.keys, pos.values, staged), staged, round, w)
  }

  /** Resolved: the first state that is not valid aborts the round. */
  function ValidateOf(k: Kernel, o: Oracle, pos: Position, t: Ticket, admitted: seq<Candidate>, resolved: seq<State>,
                      staged: map<string, State>, round: nat, w: Weather): Step {
    match FirstInvalid(o, resolved)
    case Some(f) => if f.ValueFault? then RollBack(pos, t, w, ABORTED, ValidationFailure) else Abort(pos, t, ReasonOf(f))
    case None => PublishOf(k, o, Log(pos, PhaseEvent(t, VALIDATED)), t, admitted, resolved, staged, round, w)
  }

  function WorkOf(o: Oracle, candidates: seq<Candidate>): (work: Option<seq<nat>>)
    ensures work.Some? <==> forall i | 0 <= i < |candidates| :: o.work(candidates[i]) > 0
    ensures work.Some? ==> |work.value| == |candidates|
    ensures work.Some? ==> forall i | 0 <= i < |candidates| :: work.value[i] == o.work(candidates[i])
  {
    if exists i | 0 <= i < |candidates| :: o.work(candidates[i]) <= 0 then None
    else Some(seq(|candidates|, i requires 0 <= i < |candidates| => o.work(candidates[i])))
  }

  function RemainingWork(c: Config, started: nat): nat {
    if c.fixedWork.None? || c.fixedWork.value <= started then 0 else c.fixedWork.value - started
  }

  /** Prepared: look up the cache and reserve the missing work. */
  function ReserveOf(k: Kernel, o: Oracle, c: Config, pos: Position, t: Ticket, admitted: seq<Candidate>, round: nat, w: Weather): Step
    requires |t.keys| == |admitted|
  {
    if w.beginFault.Some? then Abort(pos, t, ReasonOf(w.beginFault.value))
    else if w.lookupFault.Some? then Abort(pos, t, ReasonOf(w.lookupFault.value))
    else if w.staleLookup then RollBack(pos, t, w, INTERRUPTED, StaleSnapshot)
    else
      match WorkOf(o, At(admitted, Missing(t.keys, pos.values)))
      case None => Abort(pos, t, Reason.RuntimeContractError)
      case Some(work) =>
        if c.fixedWork.Some? && Total(work) > RemainingWork(c, pos.started) then
          if w.rollbackFails then Abort(pos, t, RuntimeException)
          else Step(Log(pos, PhaseEvent(t, INTERRUPTED).(startedWork := Value(pos.started),
                                                         detail := WorkDetail(Total(work), RemainingWork(c, pos.started)))),
                    Finish(FixedWorkExhausted))
        else
          EvaluateOf(k, o, c, Log(Log(pos, PhaseEvent(t, RESERVED)), PhaseEvent(t, EVALUATING)), t, admitted, work, round, w)
  }

  /** One round. */
  function RoundOf(k: Kernel, o: Oracle, c: Config, pos: Position, round: nat, w: Weather): Step {
    if c.fixedWork.None? && w.expiredAtStart then Step(pos, Finish(Deadline))
    else
      match k.propose(pos.state, round)
      case None => Step(pos, Escape)
      case Some(candidates) =>
        if candidates == [] then Step(pos, Finish(KernelExhausted))
        else if k.admissionLimit.Some? && k.admissionLimit.value <= 0 then Step(pos, Escape)
        else
          var limit := if k.admissionLimit.Some? then Some(k.admissionLimit.value as nat) else None;
          match AdmissionOf(o, candidates, limit)
          case None => Step(pos, Escape)
          case Some(a) =>
            var screened := Log(pos, ScreeningEvent(|candidates|, a, limit));
            if a.admitted == [] then
              Step(Log(screened, BARE.(name := RoundTerminated, detail := ReasonDetail(NoAdmissibleCandidates))),
                   Finish(NoAdmissibleCandidates))
            else
              var t := Ticket(RoundName(round), pos.digest, KeysOf(o, a.admitted));
              ReserveOf(k, o, c, Log(screened, PhaseEvent(t, PREPARED)), t, a.admitted, round, w)
  }

  /** All rounds from `round` on. */
  function RunFrom(k: Kernel, o: Oracle, c: Config, pos: Position, round: nat, weather: nat -> Weather): Step
    decreases c.maxRounds - round
  {
    if round >= c.maxRounds then Step(pos, Finish(MaxRounds))
    else
      var step := RoundOf(k, o, c, pos, round, weather(round));
      if step.end.Continue? then RunFrom(k, o, c, step.position, round + 1, weather) else step
  }

  function StartOf(o: Oracle, initial: State, seed: nat): Position {
    Position(initial, o.digest(initial), map[], 0, 0, [OpenEvent(seed, o.digest(initial))])
  }

  /** A whole run; an unusable initial state raises at once. */
  function RunOf(k: Kernel, o: Oracle, c: Config, initial: State, seed: nat, weather: nat -> Weather): Step {
    if StateFault(o, initial).Some? then Step(StartOf(o, initial, seed), Escape)
    else RunFrom(k, o, c, StartOf(o, initial, seed), 0, weather)
  }

  function TraceOf(s: Step): seq<Event>
    requires s.end.Finish? || s.end.Fail?
  {
    s.position.events + [CloseEvent(s.end.reason)]
  }
}
