/** The semantic event trace of a run, and what makes one well formed: conditions on neighbouring events and on the
    last commit before each event. */
module SemanticTrace {
  datatype Phase = PREPARED | RESERVED | EVALUATING | VALIDATED | COMMITTED | ABORTED | INTERRUPTED

  /** A field of a decoded event: missing, of the wrong type, or a value. */
  datatype Field<T> = Absent | Malformed | Value(value: T)

  datatype EventName = RunOpen | Screening | Transaction | RoundTerminated | RunTerminated | UnknownEvent

  datatype Reason =
    | Deadline | KernelExhausted | NoAdmissibleCandidates | StaleSnapshot | FixedWorkExhausted | WorkerFailure
    | ValidationFailure | CacheWriteFailure | MaxRounds | RuntimeContractError | RuntimeException | CacheOutcomeUnknown

  /** The fields that the replay does not look at. */
  datatype Detail =
    | NoDetail
    | SeedDetail(seed: nat)
    | ScreeningDetail(proposed: nat, screened: nat, unique: nat, admissible: nat, limit: int, complete: bool)
    | ReasonDetail(reason: Reason)
    | WorkDetail(requested: nat, remaining: nat)
    | CommitDetail(writes: nat, repaired: bool)

  datatype Event = Event(name: EventName, admitted: Field<int>, txn: Field<string>, phase: Field<Phase>,
                         snapshot: Field<string>, keys: Field<seq<string>>, stateDigest: Field<string>,
                         generation: Field<int>, startedWork: Field<int>, cacheOutcome: Field<string>,
                         detail: Detail)

  const UNKNOWN_OUTCOME := "unknown"

  predicate Terminal(p: Phase) { p.COMMITTED? || p.ABORTED? || p.INTERRUPTED? }

  predicate Allowed(p: Phase, q: Phase) {
    match p
    case PREPARED => q.RESERVED? || q.ABORTED? || q.INTERRUPTED?
    case RESERVED => q.EVALUATING? || q.ABORTED? || q.INTERRUPTED?
    case EVALUATING => q.VALIDATED? || q.ABORTED? || q.INTERRUPTED?
    case VALIDATED => q.COMMITTED? || q.ABORTED? || q.INTERRUPTED?
    case COMMITTED => false
    case ABORTED => false
    case INTERRUPTED => false
  }

  predicate LowerHex(c: char) { '0' <= c <= '9' || 'a' <= c <= 'f' }

  /** The text form of a SHA-256 digest. */
  predicate IsDigest(s: string) { |s| == 64 && forall i | 0 <= i < |s| :: LowerHex(s[i]) }

  predicate UniqueKeys(keys: seq<string>) { forall i, j | 0 <= i < j < |keys| :: keys[i] != keys[j] }

  predicate GoodKeys(keys: seq<string>) { keys != [] && forall i | 0 <= i < |keys| :: keys[i] != "" }

  // ---- what the run shows to the outside -------------------------------------------------------------------

  predicate IsTxn(e: Event, p: Phase) { e.name.Transaction? && e.phase == Value(p) }

  /** The number of commits among the first `n` events. */
  function Commits(events: seq<Event>, n: nat): (c: nat)
    requires n <= |events|
    ensures c <= n
  {
    if n == 0 then 0 else Commits(events, n - 1) + if IsTxn(events[n - 1], COMMITTED) then 1 else 0
  }

  /** The state digest of the last commit before `n`, or that of the opening event. */
  function VisibleDigest(events: seq<Event>, n: nat): Field<string>
    requires n <= |events|
  {
    if n <= 1 then (if n == 0 then Absent else events[0].stateDigest)
    else if IsTxn(events[n - 1], COMMITTED) then events[n - 1].stateDigest
    else VisibleDigest(events, n - 1)
  }

  /** The started work at the last commit before `n`. */
  function PublishedWork(events: seq<Event>, n: nat): int
    requires n <= |events|
  {
    if n <= 1 then 0
    else if IsTxn(events[n - 1], COMMITTED) && events[n - 1].startedWork.Value? then events[n - 1].startedWork.value
    else PublishedWork(events, n - 1)
  }

  // ---- well-formed traces ----------------------------------------------------------------------------------

  /** No transaction is open and no admitted set is waiting right after event `e`. */
  predicate Settled(e: Event) {
    match e.name
    case RunOpen => true
    case RoundTerminated => true
    case Screening => e.admitted == Value(0)
    case Transaction => e.phase.Value? && Terminal(e.phase.value)
    case RunTerminated => false
    case UnknownEvent => false
  }

  predicate Quiet(e: Event) { e.stateDigest == Absent && e.generation == Absent }

  predicate FreshTxn(events: seq<Event>, i: nat, id: string)
    requires i <= |events|
  {
    forall j | 0 < j < i && events[j].name.Transaction? :: events[j].txn != Value(id)
  }

  predicate TxnShape(e: Event) {
    && e.txn.Value? && e.phase.Value? && e.keys.Value? && GoodKeys(e.keys.value)
    && (e.cacheOutcome == Absent || (e.phase.value.INTERRUPTED? && e.cacheOutcome == Value(UNKNOWN_OUTCOME)))
  }

  /** A transaction opens on the admitted set just screened, or takes the next phase of the open transaction. */
  predicate Linked(events: seq<Event>, i: nat)
    requires 0 < i < |events| && TxnShape(events[i])
  {
    var before, e := events[i - 1], events[i];
    if before.name.Screening? then
      && e.phase.value.PREPARED? && before.admitted == Value(|e.keys.value|)
      && UniqueKeys(e.keys.value) && FreshTxn(events, i, e.txn.value)
    else
      && before.name.Transaction? && before.txn == e.txn && before.keys == e.keys
      && before.phase.Value? && Allowed(before.phase.value, e.phase.value)
  }

  /** A commit publishes state, generation and work together; nothing else shows any. */
  predicate Publishes(events: seq<Event>, i: nat)
    requires 0 < i < |events| && TxnShape(events[i])
  {
    var e := events[i];
    if e.phase.value.COMMITTED? then
      && e.stateDigest.Value? && IsDigest(e.stateDigest.value)
      && e.generation == Value(Commits(events, i) + 1)
      && e.startedWork.Value? && e.startedWork.value >= PublishedWork(events, i)
    else Quiet(e)
  }

  predicate EventOk(events: seq<Event>, i: nat)
    requires 0 < i < |events|
  {
    var before, e := events[i - 1], events[i];
    match e.name
    case Screening =>
      Quiet(e) && Settled(before) && !before.name.Screening? && e.admitted.Value? && e.admitted.value >= 0
    case RoundTerminated => Quiet(e) && Settled(before)
    case Transaction =>
      TxnShape(e) && Linked(events, i) && Publishes(events, i) && e.snapshot == VisibleDigest(events, i)
    case RunOpen => false
    case RunTerminated => false
    case UnknownEvent => false
  }

  /** An unfinished trace. */
  predicate OpenTrace(events: seq<Event>) {
    && events != [] && events[0].name.RunOpen? && events[0].stateDigest.Value? && IsDigest(events[0].stateDigest.value)
    && (forall i | 0 < i < |events| :: EventOk(events, i))
  }

  predicate WellFormedTrace(events: seq<Event>) {
    && |events| >= 2 && events[|events| - 1].name.RunTerminated?
    && OpenTrace(events[..|events| - 1]) && Settled(events[|events| - 2])
  }

  // ---- growing a trace -------------------------------------------------------------------------------------

  lemma {:induction false} HistoryStays(events: seq<Event>, more: seq<Event>, n: nat)
    requires n <= |events|
    ensures Commits(events + more, n) == Commits(events, n)
    ensures VisibleDigest(events + more, n) == VisibleDigest(events, n)
    ensures PublishedWork(events + more, n) == PublishedWork(events, n)
  {
    if n > 0 { HistoryStays(events, more, n - 1); }
  }

  lemma EventStays(events: seq<Event>, more: seq<Event>, i: nat)
    requires 0 < i < |events|
    ensures EventOk(events + more, i) <==> EventOk(events, i)
  {
    HistoryStays(events, more, i);
    assert forall j | 0 <= j <= i :: (events + more)[j] == events[j];
    assert forall id :: FreshTxn(events + more, i, id) <==> FreshTxn(events, i, id);
  }

  lemma TraceGrows(events: seq<Event>, e: Event)
    requires events != []
    ensures OpenTrace(events + [e]) <==> OpenTrace(events) && EventOk(events + [e], |events|)
  {
    var next := events + [e];
    forall i | 0 < i < |events| ensures EventOk(next, i) <==> EventOk(events, i) { EventStays(events, [e], i); }
    assert next[0] == events[0];
    if OpenTrace(events) && EventOk(next, |events|) {
      assert forall i | 0 < i < |next| :: i < |events| ==> EventOk(events, i);
    }
    if OpenTrace(next) {
      assert forall i | 0 < i < |events| :: EventOk(next, i);
    }
  }
}
