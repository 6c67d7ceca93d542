/** What the trace of a round says: it only grows, it begins with the screening and the prepared transaction, and a commit
    tells what it committed. */
module RoundTrace {
  import opened Options
  import opened RuntimeContracts
  import opened Admission
  import opened WorkLedger
  import opened Evaluation
  import opened CacheStore
  import opened SemanticTrace
  import opened RoundNames
  import opened RoundModel
  import opened TraceCompleteness
  import opened RoundOutcome
  import opened RoundExits

  predicate Extends(pos: Position, later: Position) {
    |pos.events| <= |later.events| && later.events[..|pos.events|] == pos.events
  }

  lemma ExtendsOn(a: Position, b: Position, c: Position)
    requires Extends(a, b) && Extends(b, c)
    ensures Extends(a, c)
  {
    assert c.events[..|a.events|] == c.events[..|b.events|][..|a.events|];
  }

  lemma CommitExtends(o: Oracle, pos: Position, t: Ticket, next: State, staged: map<string, State>, w: Weather)
    ensures Extends(pos, CommitOf(o, pos, t, next, staged, w).position)
  {
  }

  lemma ValidateExtends(k: Kernel, o: Oracle, pos: Position, t: Ticket, admitted: seq<Candidate>, resolved: seq<State>,
                        staged: map<string, State>, round: nat, w: Weather)
    ensures Extends(pos, ValidateOf(k, o, pos, t, admitted, resolved, staged, round, w).position)
  {
    hide FirstInvalid, StateFault, CommitOf;
    var logged := Log(pos, PhaseEvent(t, VALIDATED));
    match k.decide(pos.state, admitted, resolved, round) {
      case Raised(_) =>
      case Evaluated(next) =>
        CommitExtends(o, logged, t, next, staged, w);
        ExtendsOn(pos, logged, CommitOf(o, logged, t, next, staged, w).position);
    }
  }

  lemma EvaluateExtends(k: Kernel, o: Oracle, c: Config, pos: Position, t: Ticket, admitted: seq<Candidate>, work: seq<nat>, round: nat, w: Weather)
    requires t.keys == KeysOf(o, admitted)
    ensures Extends(pos, EvaluateOf(k, o, c, pos, t, admitted, work, round, w).position)
  {
    hide EvaluateAll, Total, ValidateOf, Missing, Staged, Resolved;
    var later := pos.(started := pos.started + Total(work));
    forall resolved, staged ensures Extends(later, ValidateOf(k, o, later, t, admitted, resolved, staged, round, w).position) {
      ValidateExtends(k, o, later, t, admitted, resolved, staged, round, w);
    }
  }

  lemma ReserveExtends(k: Kernel, o: Oracle, c: Config, pos: Position, t: Ticket, admitted: seq<Candidate>, round: nat, w: Weather)
    requires t.keys == KeysOf(o, admitted)
    ensures Extends(pos, ReserveOf(k, o, c, pos, t, admitted, round, w).position)
  {
    hide EvaluateOf, Total, Missing, WorkOf;
    var begun := Log(Log(pos, PhaseEvent(t, RESERVED)), PhaseEvent(t, EVALUATING));
    forall work ensures Extends(pos, EvaluateOf(k, o, c, begun, t, admitted, work, round, w).position) {
      EvaluateExtends(k, o, c, begun, t, admitted, work, round, w);
      ExtendsOn(pos, begun, EvaluateOf(k, o, c, begun, t, admitted, work, round, w).position);
    }
  }

  /** What the screening event tells of the admission. */
  ghost predicate TellsScreening(e: Event, proposed: nat, a: Admission, limit: Option<nat>) {
    && e.name.Screening? && e.admitted == Value(|a.admitted|) && e.detail.ScreeningDetail?
    && e.detail.proposed == proposed && e.detail.screened == a.screened && e.detail.unique == a.unique
    && e.detail.admissible == a.admissible && e.detail.complete == a.complete
    && e.detail.limit == if limit.Some? then limit.value else a.admissible
  }

  /** A round logs what it screened, then the transaction it prepares for the admitted candidates on the visible state. */
  lemma RoundLogs(k: Kernel, o: Oracle, c: Config, pos: Position, round: nat, w: Weather, admitted: seq<Candidate>)
    requires Prepares(k, o, c, pos, round, w, admitted) && admitted != []
    ensures var events, n := RoundOf(k, o, c, pos, round, w).position.events, |pos.events|;
      var candidates := k.propose(pos.state, round).value;
      && |events| > n + 1 && events[..n] == pos.events
      && TellsScreening(events[n], |candidates|, AdmissionOf(o, candidates, LimitOf(k)).value, LimitOf(k))
      && IsTxn(events[n + 1], PREPARED) && events[n + 1].txn == Value(RoundName(round))
      && events[n + 1].snapshot == Value(pos.digest) && events[n + 1].keys == Value(KeysOf(o, admitted))
  {
    hide ReserveOf, AdmissionOf, RoundName;
    var candidates := k.propose(pos.state, round).value;
    AdmittedKeys(o, candidates, LimitOf(k));
    var a := AdmissionOf(o, candidates, LimitOf(k)).value;
    var t := Ticket(RoundName(round), pos.digest, KeysOf(o, a.admitted));
    var mid := Log(Log(pos, ScreeningEvent(|candidates|, a, LimitOf(k))), PhaseEvent(t, PREPARED));
    ReserveExtends(k, o, c, mid, t, a.admitted, round, w);
    var s := RoundOf(k, o, c, pos, round, w);
    assert s == ReserveOf(k, o, c, mid, t, a.admitted, round, w);
    var n := |pos.events|;
    assert s.position.events[..|mid.events|] == mid.events;
    assert s.position.events[n] == mid.events[n] && s.position.events[n + 1] == mid.events[n + 1];
    assert s.position.events[..n] == s.position.events[..|mid.events|][..n];
  }

  /** A commit tells the state, the generation and the work it makes visible, how much it writes and whether it had to be
      repaired. */
  lemma CommitTells(o: Oracle, pos: Position, t: Ticket, next: State, staged: map<string, State>, w: Weather)
    ensures var s := CommitOf(o, pos, t, next, staged, w).position; var e := s.events[|s.events| - 1];
      |s.events| == |pos.events| + 1 && (IsTxn(e, COMMITTED) ==>
        && e.txn == Value(t.id) && e.keys == Value(t.keys) && e.snapshot == Value(t.snapshot)
        && e.stateDigest == Value(o.digest(s.state)) && e.generation == Value(s.generation) && e.startedWork == Value(s.started)
        && s.digest == o.digest(s.state)
        && e.detail == CommitDetail(|staged|, !(w.backend.receiptGood && w.backend.closes)))
  {
  }

  lemma {:induction false} RunExtends(k: Kernel, o: Oracle, c: Config, pos: Position, round: nat, weather: nat -> Weather)
    ensures Extends(pos, RunFrom(k, o, c, pos, round, weather).position)
    decreases c.maxRounds - round
  {
    hide RoundOf;
    if round < c.maxRounds {
      var step := RoundOf(k, o, c, pos, round, weather(round));
      RoundExtends(k, o, c, pos, round, weather(round));
      if step.end.Continue? {
        RunExtends(k, o, c, step.position, round + 1, weather);
        ExtendsOn(pos, step.position, RunFrom(k, o, c, step.position, round + 1, weather).position);
      }
    }
  }

  lemma RoundExtends(k: Kernel, o: Oracle, c: Config, pos: Position, round: nat, w: Weather)
    ensures Extends(pos, RoundOf(k, o, c, pos, round, w).position)
  {
    hide ReserveOf, AdmissionOf;
    if exists admitted :: Prepares(k, o, c, pos, round, w, admitted) && admitted != [] {
      var admitted :| Prepares(k, o, c, pos, round, w, admitted) && admitted != [];
      RoundLogs(k, o, c, pos, round, w, admitted);
    } else if k.propose(pos.state, round).Some? && (k.admissionLimit.Some? ==> k.admissionLimit.value > 0) {
      var a := AdmissionOf(o, k.propose(pos.state, round).value, LimitOf(k));
      assert a.Some? && Prepares(k, o, c, pos, round, w, a.value.admitted) ==> a.value.admitted == [];
    }
  }

  /** The trace of a run begins with its seed and initial state and ends with the reason it returns or raises. */
  lemma TraceFramed(k: Kernel, o: Oracle, c: Config, initial: State, seed: nat, weather: nat -> Weather)
    requires Usable(o, initial)
    ensures var s := RunOf(k, o, c, initial, seed, weather);
      s.end.Finish? || s.end.Fail? ==>
        var trace := TraceOf(s);
        && |trace| >= 2 && trace[0].name.RunOpen? && trace[0].detail == SeedDetail(seed) && trace[0].stateDigest == Value(o.digest(initial))
        && trace[|trace| - 1].name.RunTerminated? && trace[|trace| - 1].detail == ReasonDetail(s.end.reason)
  {
    hide RunFrom, Usable;
    FaultMeans(o, initial);
    var start := StartOf(o, initial, seed);
    RunExtends(k, o, c, start, 0, weather);
    var s := RunOf(k, o, c, initial, seed, weather);
    assert s.position.events[..1] == start.events;
    assert s.position.events[0] == start.events[0];
  }
}
