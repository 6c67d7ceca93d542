/** Every trace a run emits, whatever happens from outside, is one the independent replay accepts. */
module TraceCompleteness {
  import opened Options
  import opened RuntimeContracts
  import opened Admission
  import opened Evaluation
  import opened WorkLedger
  import opened CacheStore
  import opened SemanticTrace
  import opened RoundNames
  import opened RoundModel

  ghost predicate NamesBelow(events: seq<Event>, round: nat) {
    forall i | 0 < i < |events| && events[i].name.Transaction? :: exists r: nat | r < round :: events[i].txn == Value(RoundName(r))
  }

  /** What holds of a trace and a position at any time. */
  ghost predicate Agrees(pos: Position) {
    && OpenTrace(pos.events) && VisibleDigest(pos.events, |pos.events|) == Value(pos.digest) && IsDigest(pos.digest)
    && PublishedWork(pos.events, |pos.events|) <= pos.started
  }

  /** Between rounds. */
  ghost predicate Boundary(pos: Position, round: nat) {
    && Agrees(pos) && Commits(pos.events, |pos.events|) == pos.generation && NamesBelow(pos.events, round)
    && Settled(pos.events[|pos.events| - 1]) && !pos.events[|pos.events| - 1].name.Screening?
  }

  /** In a transaction that has reached phase `p`. */
  ghost predicate InTxn(pos: Position, t: Ticket, p: Phase, round: nat) {
    && Agrees(pos) && Commits(pos.events, |pos.events|) == pos.generation && NamesBelow(pos.events, round + 1)
    && var last := pos.events[|pos.events| - 1];
    && last.name.Transaction? && last.txn == Value(t.id) && last.keys == Value(t.keys) && last.phase == Value(p)
    && pos.digest == t.snapshot && GoodKeys(t.keys) && (exists r: nat | r <= round :: t.id == RoundName(r))
  }

  /** The commit published although its owner could not see it. */
  predicate Blind(b: Backend) { b.refuses.None? && b.publishes && b.snapshotFails }

  /** At the end. */
  ghost predicate Sealed(pos: Position) {
    Agrees(pos) && Settled(pos.events[|pos.events| - 1])
  }

  lemma Grow(pos: Position, e: Event)
    requires OpenTrace(pos.events)
    ensures OpenTrace(Log(pos, e).events) <==> EventOk(Log(pos, e).events, |pos.events|)
    ensures var events := Log(pos, e).events; var n := |pos.events|;
      Commits(events, n) == Commits(pos.events, n) && VisibleDigest(events, n) == VisibleDigest(pos.events, n)
      && PublishedWork(events, n) == PublishedWork(pos.events, n)
  {
    hide EventOk, OpenTrace;
    assert pos.events != [] by { NonEmpty(pos.events); }
    TraceGrows(pos.events, e);
    HistoryStays(pos.events, [e], |pos.events|);
  }

  lemma NonEmpty(events: seq<Event>)
    requires OpenTrace(events)
    ensures events != []
  {
  }

  /** One more phase, short of the commit. */
  lemma NextPhase(pos: Position, t: Ticket, p: Phase, round: nat, q: Phase, e: Event)
    requires InTxn(pos, t, p, round) && Allowed(p, q) && !q.COMMITTED?
    requires e.name.Transaction? && e.txn == Value(t.id) && e.keys == Value(t.keys) && e.phase == Value(q)
    requires e.snapshot == Value(t.snapshot) && Quiet(e)
    requires e.cacheOutcome == Absent || (q.INTERRUPTED? && e.cacheOutcome == Value(UNKNOWN_OUTCOME))
    ensures !Terminal(q) ==> InTxn(Log(pos, e), t, q, round)
    ensures Terminal(q) ==> Sealed(Log(pos, e)) && Commits(Log(pos, e).events, |pos.events| + 1) == pos.generation
  {
    hide FreshTxn, IsDigest, RoundName, UniqueKeys;
    Grow(pos, e);
    var events, n := Log(pos, e).events, |pos.events|;
    assert events[n] == e && events[n - 1] == pos.events[n - 1];
    assert Linked(events, n) && Publishes(events, n);
    assert forall i | 0 < i < n :: events[i] == pos.events[i];
  }

  lemma Closed(pos: Position, t: Ticket, p: Phase, round: nat, q: Phase)
    requires InTxn(pos, t, p, round) && Allowed(p, q) && Terminal(q) && !q.COMMITTED?
    ensures Sealed(Log(pos, PhaseEvent(t, q)))
    ensures Commits(Log(pos, PhaseEvent(t, q)).events, |pos.events| + 1) == pos.generation
  {
    hide InTxn, Sealed, Commits;
    NextPhase(pos, t, p, round, q, PhaseEvent(t, q));
  }

  /** The commit. */
  lemma Committed(pos: Position, t: Ticket, round: nat, after: Position, writes: nat, repaired: bool)
    requires InTxn(pos, t, VALIDATED, round) && IsDigest(after.digest)
    requires after.events == pos.events + [CommitEvent(t, after.digest, pos.generation + 1, pos.started, writes, repaired)]
    requires after.generation == pos.generation + 1 && after.started == pos.started
    ensures Boundary(after, round + 1)
  {
    hide FreshTxn, IsDigest, RoundName, UniqueKeys;
    var e := CommitEvent(t, after.digest, pos.generation + 1, pos.started, writes, repaired);
    Grow(pos, e);
    var events, n := after.events, |pos.events|;
    assert events == Log(pos, e).events;
    assert events[n] == e && events[n - 1] == pos.events[n - 1];
    assert Linked(events, n) && Publishes(events, n);
    assert forall i | 0 < i < n :: events[i] == pos.events[i];
  }

  // ---- the stages ------------------------------------------------------------------------------------------

  /** What every stage leaves behind. */
  ghost predicate Ends(s: Step, round: nat, w: Weather) {
    match s.end
    case Continue => Boundary(s.position, round + 1)
    case Finish(_) => Sealed(s.position) && Commits(s.position.events, |s.position.events|) == s.position.generation
    case Fail(_) =>
      Sealed(s.position) && (Commits(s.position.events, |s.position.events|) == s.position.generation || Blind(w.backend))
    case Escape => true
  }

  lemma AbortEnds(pos: Position, t: Ticket, p: Phase, round: nat, w: Weather, reason: Reason)
    requires InTxn(pos, t, p, round) && !Terminal(p)
    ensures Ends(Abort(pos, t, reason), round, w)
  {
    hide InTxn, Sealed, Commits;
    Closed(pos, t, p, round, ABORTED);
  }

  lemma RollBackEnds(pos: Position, t: Ticket, p: Phase, round: nat, w: Weather, q: Phase, reason: Reason)
    requires InTxn(pos, t, p, round) && !Terminal(p) && (q.ABORTED? || q.INTERRUPTED?)
    ensures Ends(RollBack(pos, t, w, q, reason), round, w)
  {
    hide InTxn, Sealed, Commits;
    Closed(pos, t, p, round, ABORTED);
    Closed(pos, t, p, round, q);
  }

  lemma CommitEnds(o: Oracle, pos: Position, t: Ticket, next: State, staged: map<string, State>, w: Weather, round: nat)
    requires InTxn(pos, t, VALIDATED, round) && IsDigest(o.digest(next))
    ensures Ends(CommitOf(o, pos, t, next, staged, w), round, w)
  {
    hide InTxn, Sealed, Commits, Boundary, IsDigest;
    match w.backend.refuses
    case Some(RefusedStale) => RollBackEnds(pos, t, VALIDATED, round, w, INTERRUPTED, StaleSnapshot);
    case Some(RefusedCache) => RollBackEnds(pos, t, VALIDATED, round, w, ABORTED, CacheWriteFailure);
    case Some(RefusedOther(f)) => AbortEnds(pos, t, VALIDATED, round, w, ReasonOf(f));
    case None => AcknowledgedEnds(o, pos, t, next, staged, w, round);
  }

  lemma AcknowledgedEnds(o: Oracle, pos: Position, t: Ticket, next: State, staged: map<string, State>, w: Weather, round: nat)
    requires InTxn(pos, t, VALIDATED, round) && IsDigest(o.digest(next)) && w.backend.refuses.None?
    ensures Ends(CommitOf(o, pos, t, next, staged, w), round, w)
  {
    hide InTxn, Sealed, Commits, Boundary, IsDigest;
    var s, v := CommitOf(o, pos, t, next, staged, w), VerdictFor(w.backend);
    if v.Confirmed? || v.Repaired? {
      assert w.backend.publishes;
      assert s.position.events == pos.events + [CommitEvent(t, o.digest(next), pos.generation + 1, pos.started, |staged|, v.Repaired?)];
      Committed(pos, t, round, s.position, |staged|, v.Repaired?);
      BoundarySealed(s.position, round + 1);
    } else {
      assert w.backend.publishes ==> Blind(w.backend);
      var e := if v.Unverified? then PhaseEvent(t, ABORTED) else PhaseEvent(t, INTERRUPTED).(cacheOutcome := Value(UNKNOWN_OUTCOME));
      NextPhase(pos, t, VALIDATED, round, if v.Unverified? then ABORTED else INTERRUPTED, e);
      assert s.position.events == Log(pos, e).events;
      ElsewhereSealed(Log(pos, e), s.position);
    }
  }

  lemma BoundarySealed(pos: Position, round: nat)
    requires Boundary(pos, round)
    ensures Sealed(pos) && Commits(pos.events, |pos.events|) == pos.generation
  {
  }

  lemma ElsewhereSealed(pos: Position, pos': Position)
    requires Sealed(pos) && pos'.events == pos.events && pos'.digest == pos.digest && pos'.started == pos.started
    ensures Sealed(pos')
  {
  }

  lemma PublishEnds(k: Kernel, o: Oracle, pos: Position, t: Ticket, admitted: seq<Candidate>, resolved: seq<State>,
                    staged: map<string, State>, round: nat, w: Weather)
    requires InTxn(pos, t, VALIDATED, round)
    ensures Ends(PublishOf(k, o, pos, t, admitted, resolved, staged, round, w), round, w)
  {
    hide InTxn, Ends, CommitOf, IsDigest;
    match k.decide(pos.state, admitted, resolved, round)
    case Raised(f) => AbortEnds(pos, t, VALIDATED, round, w, ReasonOf(f));
    case Evaluated(next) =>
      if StateFault(o, next).Some? {
        AbortEnds(pos, t, VALIDATED, round, w, ReasonOf(StateFault(o, next).value));
      } else {
        AbortEnds(pos, t, VALIDATED, round, w, Reason.RuntimeContractError);
        CommitEnds(o, pos, t, next, staged, w, round);
      }
  }

  lemma ResolveEnds(k: Kernel, o: Oracle, c: Config, pos: Position, t: Ticket, admitted: seq<Candidate>, observed: bool,
                    staged: map<string, State>, round: nat, w: Weather)
    requires forall i | 0 <= i < |t.keys| :: t.keys[i] in pos.values || t.keys[i] in staged
    requires InTxn(pos, t, EVALUATING, round)
    ensures Ends(ResolveOf(k, o, c, pos, t, admitted, observed, staged, round, w), round, w)
  {
    hide InTxn, Ends, PublishOf, FirstInvalid;
    if w.observationFault.Some? { AbortEnds(pos, t, EVALUATING, round, w, ReasonOf(w.observationFault.value)); }
    RollBackEnds(pos, t, EVALUATING, round, w, INTERRUPTED, Deadline);
    RollBackEnds(pos, t, EVALUATING, round, w, ABORTED, ValidationFailure);
    var resolved := Resolved(t.keys, pos.values, staged);
    if FirstInvalid(o, resolved).Some? { AbortEnds(pos, t, EVALUATING, round, w, ReasonOf(FirstInvalid(o, resolved).value)); }
    NextPhase(pos, t, EVALUATING, round, VALIDATED, PhaseEvent(t, VALIDATED));
    PublishEnds(k, o, Log(pos, PhaseEvent(t, VALIDATED)), t, admitted, resolved, staged, round, w);
  }

  lemma EvaluationFailsEnds(c: Config, pos: Position, t: Ticket, f: Fault, w: Weather, round: nat)
    requires InTxn(pos, t, EVALUATING, round)
    ensures Ends(EvaluationFails(c, pos, t, f, w), round, w)
  {
    hide InTxn, Ends;
    AbortEnds(pos, t, EVALUATING, round, w, Reason.RuntimeContractError);
    AbortEnds(pos, t, EVALUATING, round, w, ReasonOf(f));
    RollBackEnds(pos, t, EVALUATING, round, w, ABORTED, WorkerFailure);
    RollBackEnds(pos, t, EVALUATING, round, w, INTERRUPTED, Deadline);
  }

  lemma EvaluateEnds(k: Kernel, o: Oracle, c: Config, pos: Position, t: Ticket, admitted: seq<Candidate>, work: seq<nat>,
                     round: nat, w: Weather)
    requires |t.keys| == |admitted| && InTxn(pos, t, EVALUATING, round)
    ensures Ends(EvaluateOf(k, o, c, pos, t, admitted, work, round, w), round, w)
  {
    hide InTxn, Ends, ResolveOf, EvaluationFails, EvaluateRange, Staged, Missing, At, Total;
    var missing := Missing(t.keys, pos.values);
    match EvaluateAll(Batch(o, At(admitted, missing), w.fault))
    case Failure(f) => EvaluationFailsEnds(c, pos, t, f, w, round);
    case Values(states) =>
      var staged := Staged(At(t.keys, missing), states);
      MissingCovered(t.keys, pos.values);
      StartedLater(pos, t, EVALUATING, round, pos.started + Total(work));
      ResolveEnds(k, o, c, pos.(started := pos.started + Total(work)), t, admitted, missing != [], staged, round, w);
  }

  lemma MissingCovered(keys: seq<string>, values: map<string, State>)
    ensures forall i | 0 <= i < |keys| && keys[i] !in values :: keys[i] in At(keys, Missing(keys, values))
  {
    var missing := Missing(keys, values);
    forall i | 0 <= i < |keys| && keys[i] !in values ensures keys[i] in At(keys, missing) {
      var j :| 0 <= j < |missing| && missing[j] == i;
      assert At(keys, missing)[j] == keys[i];
    }
  }

  lemma StartedLater(pos: Position, t: Ticket, p: Phase, round: nat, started: nat)
    requires InTxn(pos, t, p, round) && started >= pos.started
    ensures InTxn(pos.(started := started), t, p, round)
  {
  }

  lemma ReserveEnds(k: Kernel, o: Oracle, c: Config, pos: Position, t: Ticket, admitted: seq<Candidate>, round: nat, w: Weather)
    requires |t.keys| == |admitted| && InTxn(pos, t, PREPARED, round)
    ensures Ends(ReserveOf(k, o, c, pos, t, admitted, round, w), round, w)
  {
    hide InTxn, Ends, EvaluateOf, Total, Commits, Sealed;
    if w.beginFault.Some? { AbortEnds(pos, t, PREPARED, round, w, ReasonOf(w.beginFault.value)); }
    if w.lookupFault.Some? { AbortEnds(pos, t, PREPARED, round, w, ReasonOf(w.lookupFault.value)); }
    RollBackEnds(pos, t, PREPARED, round, w, INTERRUPTED, StaleSnapshot);
    AbortEnds(pos, t, PREPARED, round, w, Reason.RuntimeContractError);
    AbortEnds(pos, t, PREPARED, round, w, RuntimeException);
    var work := WorkOf(o, At(admitted, Missing(t.keys, pos.values)));
    if work.Some? {
      var e := PhaseEvent(t, INTERRUPTED).(startedWork := Value(pos.started),
                                           detail := WorkDetail(Total(work.value), RemainingWork(c, pos.started)));
      NextPhase(pos, t, PREPARED, round, INTERRUPTED, e);
      ExhaustedEnds(Log(pos, e), round, w);
      NextPhase(pos, t, PREPARED, round, RESERVED, PhaseEvent(t, RESERVED));
      var reserved := Log(pos, PhaseEvent(t, RESERVED));
      NextPhase(reserved, t, RESERVED, round, EVALUATING, PhaseEvent(t, EVALUATING));
      EvaluateEnds(k, o, c, Log(reserved, PhaseEvent(t, EVALUATING)), t, admitted, work.value, round, w);
    }
  }

  lemma ExhaustedEnds(pos: Position, round: nat, w: Weather)
    requires Sealed(pos) && Commits(pos.events, |pos.events|) == pos.generation
    ensures Ends(Step(pos, Finish(FixedWorkExhausted)), round, w)
  {
  }

  // ---- rounds and runs ---------------------------------------------------------------------------------------

  /** The first candidates of their keys have different keys, none of them empty. */
  lemma AdmittedKeys(o: Oracle, candidates: seq<Candidate>, limit: Option<nat>)
    requires limit.Some? ==> limit.value > 0
    ensures match AdmissionOf(o, candidates, limit)
      case None => true
      case Some(a) => UniqueKeys(a.keys) && (a.admitted != [] ==> GoodKeys(a.keys)) && a.keys == KeysOf(o, a.admitted)
  {
    hide ScanOn, Gather, FirstOfEachKey, Passing;
    assert candidates[..0] == [];
    StartExact(o, candidates, limit);
    ScanOnExact(o, candidates, limit, SCAN_START);
    match ScanOn(o, candidates, limit, SCAN_START)
    case None =>
    case Some(e) =>
      var firsts := FirstOfEachKey(o, candidates[..e.position]);
      FirstsDiffer(o, candidates[..e.position]);
      PassingDiffer(o, firsts);
      forall c | c in firsts ensures o.key(c) != "" {
        assert c in candidates[..e.position];
        var i :| 0 <= i < e.position && candidates[i] == c;
      }
  }

  ghost predicate Differ(o: Oracle, s: seq<Candidate>) {
    forall i, j | 0 <= i < j < |s| :: o.key(s[i]) != o.key(s[j])
  }

  lemma {:induction false} FirstsDiffer(o: Oracle, candidates: seq<Candidate>)
    ensures Differ(o, FirstOfEachKey(o, candidates))
    ensures forall c | c in FirstOfEachKey(o, candidates) :: c in candidates
  {
    if candidates != [] {
      var n := |candidates| - 1;
      FirstsDiffer(o, candidates[..n]);
      var front := FirstOfEachKey(o, candidates[..n]);
      forall i | 0 <= i < |front| && FirstOfKey(o, candidates, n) ensures o.key(front[i]) != o.key(candidates[n]) {
        assert front[i] in candidates[..n];
        var j :| 0 <= j < n && candidates[j] == front[i];
      }
    }
  }

  lemma {:induction false} PassingDiffer(o: Oracle, s: seq<Candidate>)
    requires Differ(o, s)
    ensures Differ(o, Passing(o, s))
    ensures forall c | c in Passing(o, s) :: c in s
  {
    if s != [] {
      var n := |s| - 1;
      PassingDiffer(o, s[..n]);
      var front := Passing(o, s[..n]);
      forall i | 0 <= i < |front| ensures o.key(front[i]) != o.key(s[n]) {
        assert front[i] in s[..n];
        var j :| 0 <= j < n && s[j] == front[i];
      }
    }
  }

  lemma Screen(pos: Position, round: nat, e: Event)
    requires Boundary(pos, round) && e.name.Screening? && Quiet(e) && e.admitted.Value? && e.admitted.value >= 0
    ensures Agrees(Log(pos, e)) && Commits(Log(pos, e).events, |pos.events| + 1) == pos.generation
    ensures NamesBelow(Log(pos, e).events, round)
  {
    hide IsDigest, RoundName;
    Grow(pos, e);
    var events, n := Log(pos, e).events, |pos.events|;
    assert events[n] == e && events[n - 1] == pos.events[n - 1];
    assert forall i | 0 < i < n :: events[i] == pos.events[i];
  }

  lemma NothingAdmitted(pos: Position, e: Event)
    requires Agrees(pos) && Settled(pos.events[|pos.events| - 1]) && e.name.RoundTerminated? && Quiet(e)
    ensures Sealed(Log(pos, e)) && Commits(Log(pos, e).events, |pos.events| + 1) == Commits(pos.events, |pos.events|)
  {
    hide IsDigest;
    Grow(pos, e);
    var events, n := Log(pos, e).events, |pos.events|;
    assert events[n] == e && events[n - 1] == pos.events[n - 1];
  }

  lemma Prepare(pos: Position, round: nat, t: Ticket)
    requires Agrees(pos) && Commits(pos.events, |pos.events|) == pos.generation && NamesBelow(pos.events, round)
    requires pos.events[|pos.events| - 1].name.Screening? && pos.events[|pos.events| - 1].admitted == Value(|t.keys|)
    requires t.id == RoundName(round) && t.snapshot == pos.digest && UniqueKeys(t.keys) && GoodKeys(t.keys)
    ensures InTxn(Log(pos, PhaseEvent(t, PREPARED)), t, PREPARED, round)
  {
    hide IsDigest, RoundName, UniqueKeys, GoodKeys;
    var e := PhaseEvent(t, PREPARED);
    Grow(pos, e);
    var events, n := Log(pos, e).events, |pos.events|;
    assert events[n] == e && events[n - 1] == pos.events[n - 1];
    assert forall i | 0 < i < n :: events[i] == pos.events[i];
    forall i | 0 < i < n && events[i].name.Transaction? ensures events[i].txn != Value(t.id) {
      var r: nat :| r < round && events[i].txn == Value(RoundName(r));
      if RoundName(r) == RoundName(round) { NamesDiffer(r, round); }
    }
    assert FreshTxn(events, n, t.id);
    assert Linked(events, n) && Publishes(events, n);
  }

  lemma RoundEnds(k: Kernel, o: Oracle, c: Config, pos: Position, round: nat, w: Weather)
    requires Boundary(pos, round)
    ensures Ends(RoundOf(k, o, c, pos, round, w), round, w)
  {
    hide InTxn, ReserveOf, AdmissionOf, IsDigest, RoundName, UniqueKeys, NamesBelow, Agrees, Commits, GoodKeys;
    BoundarySealed(pos, round);
    var proposed := k.propose(pos.state, round);
    if proposed.Some? && proposed.value != [] && (k.admissionLimit.Some? ==> k.admissionLimit.value > 0) {
      var candidates := proposed.value;
      var limit := if k.admissionLimit.Some? then Some(k.admissionLimit.value as nat) else None;
      AdmittedKeys(o, candidates, limit);
      match AdmissionOf(o, candidates, limit)
      case None =>
      case Some(a) =>
        var e := ScreeningEvent(|candidates|, a, limit);
        Screen(pos, round, e);
        var screened := Log(pos, e);
        assert screened.events[|screened.events| - 1] == e;
        if a.admitted == [] {
          NothingAdmitted(screened, BARE.(name := RoundTerminated, detail := ReasonDetail(NoAdmissibleCandidates)));
        } else {
          var t := Ticket(RoundName(round), pos.digest, KeysOf(o, a.admitted));
          Prepare(screened, round, t);
          ReserveEnds(k, o, c, Log(screened, PhaseEvent(t, PREPARED)), t, a.admitted, round, w);
        }
    }
  }

  lemma {:induction false} RunEnds(k: Kernel, o: Oracle, c: Config, pos: Position, round: nat, weather: nat -> Weather)
    requires Boundary(pos, round)
    ensures var s := RunFrom(k, o, c, pos, round, weather);
      !s.end.Continue? && (!s.end.Escape? ==> Sealed(s.position))
    ensures var s := RunFrom(k, o, c, pos, round, weather);
      !s.end.Escape? && Commits(s.position.events, |s.position.events|) != s.position.generation ==>
        s.end.Fail? && exists r | round <= r < c.maxRounds :: Blind(weather(r).backend)
    decreases c.maxRounds - round
  {
    hide RoundOf, Boundary, Sealed, Commits;
    if round >= c.maxRounds {
      BoundarySealed(pos, round);
    } else {
      RoundEnds(k, o, c, pos, round, weather(round));
      var s := RoundOf(k, o, c, pos, round, weather(round));
      if s.end.Continue? { RunEnds(k, o, c, s.position, round + 1, weather); }
    }
  }

  lemma StartBoundary(o: Oracle, initial: State, seed: nat)
    requires IsDigest(o.digest(initial))
    ensures Boundary(StartOf(o, initial, seed), 0)
  {
    hide IsDigest;
    var events := StartOf(o, initial, seed).events;
    assert Commits(events, 1) == 0 by { assert Commits(events, 0) == 0; }
  }

  /** Every trace a run emits is well formed, so the replay accepts it; its last visible digest is that of the state the
      run returns, and its commits are the generations of the cache unless a store lost sight of a commit. */
  lemma EmittedTracesReplay(k: Kernel, o: Oracle, c: Config, initial: State, seed: nat, weather: nat -> Weather)
    ensures var s := RunOf(k, o, c, initial, seed, weather);
      s.end.Finish? || s.end.Fail? ==>
        WellFormedTrace(TraceOf(s)) && VisibleDigest(TraceOf(s), |TraceOf(s)|) == Value(s.position.digest)
    ensures var s := RunOf(k, o, c, initial, seed, weather);
      s.end.Finish? || (s.end.Fail? && forall r: nat :: !Blind(weather(r).backend)) ==>
        Commits(TraceOf(s), |TraceOf(s)|) == s.position.generation
    ensures !RunOf(k, o, c, initial, seed, weather).end.Continue?
  {
    hide RunFrom, IsDigest, StateFault, Commits, Boundary;
    var s := RunOf(k, o, c, initial, seed, weather);
    if StateFault(o, initial).None? {
      NoFaultDigest(o, initial);
      StartBoundary(o, initial, seed);
      RunEnds(k, o, c, StartOf(o, initial, seed), 0, weather);
      if !s.end.Escape? { TraceSealed(s); }
    }
  }

  lemma NoFaultDigest(o: Oracle, s: State)
    requires StateFault(o, s).None?
    ensures IsDigest(o.digest(s))
  {
  }

  lemma TraceSealed(s: Step)
    requires (s.end.Finish? || s.end.Fail?) && Sealed(s.position)
    ensures WellFormedTrace(TraceOf(s)) && VisibleDigest(TraceOf(s), |TraceOf(s)|) == Value(s.position.digest)
    ensures Commits(TraceOf(s), |TraceOf(s)|) == Commits(s.position.events, |s.position.events|)
  {
    hide IsDigest, EventOk;
    var trace := TraceOf(s);
    assert trace[..|trace| - 1] == s.position.events;
    HistoryStays(s.position.events, [CloseEvent(s.end.reason)], |s.position.events|);
  }
}
