/** The prepared round of the native path: it reserves, settles and prepares cache writes, but publishes nothing. */
module PreparedRound {
  import opened Options

  datatype RoundPhase = PREPARED | RESERVED | EVALUATING | VALIDATED | ABORTED | INTERRUPTED

  datatype RoundFailure = OutOfOrder | OverBudget | LedgerViolated | WritesOnInterruption | IncompleteDelta | NotTerminal

  datatype Receipt = Receipt(phase: RoundPhase, requested: nat, limit: nat, reserved: nat, remaining: nat, started: nat,
                             completed: nat, interrupted: nat, writes: nat, checksum: bv64, trace: seq<RoundPhase>)

  predicate Terminal(p: RoundPhase) { p.VALIDATED? || p.ABORTED? || p.INTERRUPTED? }

  predicate Follows(p: RoundPhase, q: RoundPhase) {
    match p
    case PREPARED => q.RESERVED? || q.ABORTED?
    case RESERVED => q.EVALUATING? || q.ABORTED?
    case EVALUATING => q.VALIDATED? || q.INTERRUPTED? || q.ABORTED?
    case _ => false
  }

  /** The phases of a round from its preparation on. */
  ghost predicate PhaseTrace(trace: seq<RoundPhase>) {
    trace != [] && trace[0].PREPARED? && forall i, j | 0 <= i && j == i + 1 < |trace| :: Follows(trace[i], trace[j])
  }

  /** A settlement the ledger accepts. */
  predicate Settles(reserved: nat, started: int, completed: int, interrupted: int) {
    0 <= completed && 0 <= interrupted && completed + interrupted == started && started <= reserved
  }

  class PreparedRoundTransaction {
    const requested: nat
    const limit: nat
    const checksumOf: seq<bv64> -> bv64
    var reserved: nat
    var started: nat
    var completed: nat
    var interrupted: nat
    var writes: nat
    var checksum: bv64
    var phase: RoundPhase
    var trace: seq<RoundPhase>

    /** The ledger always balances, and cache writes exist only for a round that did all its work. */
    ghost predicate Valid()
      reads this
    {
      && PhaseTrace(trace) && trace[|trace| - 1] == phase
      && (reserved == requested || (reserved == 0 && (phase.PREPARED? || phase.ABORTED?))) && reserved <= limit
      && (phase.PREPARED? ==> reserved == 0)
      && started == completed + interrupted && started <= reserved
      && (phase.PREPARED? || phase.RESERVED? || phase.EVALUATING? ==> started == 0)
      && (phase.VALIDATED? ==> completed == requested && interrupted == 0)
      && (phase.INTERRUPTED? ==> interrupted != 0 || started < requested)
      && (writes != 0 ==> phase.VALIDATED? && writes == completed)
    }

    constructor (requested: nat, limit: nat, checksumOf: seq<bv64> -> bv64)
      ensures Valid() && phase.PREPARED? && trace == [PREPARED] && writes == 0
      ensures this.requested == requested && this.limit == limit && this.checksumOf == checksumOf
    {
      this.requested, this.limit, this.checksumOf := requested, limit, checksumOf;
      reserved, started, completed, interrupted, writes, checksum := 0, 0, 0, 0, 0, 0;
      phase, trace := PREPARED, [PREPARED];
    }

    method Transition(next: RoundPhase)
      requires PhaseTrace(trace) && trace[|trace| - 1] == phase && Follows(phase, next)
      modifies this`phase, this`trace
      ensures phase == next && trace == old(trace) + [next] && PhaseTrace(trace)
    {
      phase := next;
      trace := trace + [next];
    }

    method Reserve() returns (failure: Option<RoundFailure>)
      requires Valid()
      modifies this
      ensures Valid()
      ensures failure == if !old(phase).PREPARED? then Some(OutOfOrder) else if requested > limit then Some(OverBudget) else None
      ensures failure == None ==> phase.RESERVED? && reserved == requested
      ensures failure == Some(OverBudget) ==> phase.ABORTED?
      ensures failure == Some(OutOfOrder) ==> phase == old(phase) && trace == old(trace)
    {
      if !phase.PREPARED? {
        return Some(OutOfOrder);
      }
      if requested > limit {
        Transition(ABORTED);
        return Some(OverBudget);
      }
      reserved := requested;
      Transition(RESERVED);
      failure := None;
    }

    method BeginEvaluation() returns (failure: Option<RoundFailure>)
      requires Valid()
      modifies this
      ensures Valid() && failure == if old(phase).RESERVED? then None else Some(OutOfOrder)
      ensures if old(phase).RESERVED? then phase.EVALUATING? else phase == old(phase) && trace == old(trace)
    {
      if !phase.RESERVED? {
        return Some(OutOfOrder);
      }
      Transition(EVALUATING);
      failure := None;
    }

    /** Settles the work.  Only complete work with one key per unit is validated; anything short of that may end
        interrupted, without writes, or is refused. */
    method Resolve(startedWork: int, completedWork: int, interruptedWork: int, keys: seq<bv64>) returns (failure: Option<RoundFailure>)
      requires Valid()
      modifies this
      ensures Valid()
      ensures failure ==
        if !old(phase).EVALUATING? then Some(OutOfOrder)
        else if !Settles(requested, startedWork, completedWork, interruptedWork) then Some(LedgerViolated)
        else if completedWork < requested then (if keys != [] then Some(WritesOnInterruption) else None)
        else if |keys| != requested then Some(IncompleteDelta) else None
      ensures failure == Some(OutOfOrder) ==> phase == old(phase) && trace == old(trace)
      ensures failure.Some? && failure != Some(OutOfOrder) ==> phase.ABORTED? && writes == 0
      ensures failure.None? ==> started == startedWork && completed == completedWork && interrupted == interruptedWork
      ensures failure.None? ==> phase == if completedWork == requested then VALIDATED else INTERRUPTED
      ensures failure.None? ==> writes == (if phase.VALIDATED? then |keys| else 0)
      ensures failure.None? && phase.VALIDATED? ==> checksum == checksumOf(keys)
    {
      if !phase.EVALUATING? {
        return Some(OutOfOrder);
      }
      if startedWork < 0 || completedWork < 0 || interruptedWork < 0 || startedWork > reserved || completedWork > startedWork
         || interruptedWork > startedWork || completedWork + interruptedWork != startedWork {
        Transition(ABORTED);
        return Some(LedgerViolated);
      }
      started, completed, interrupted := startedWork, completedWork, interruptedWork;
      if interruptedWork != 0 || startedWork != requested {
        if keys != [] {
          Transition(ABORTED);
          return Some(WritesOnInterruption);
        }
        Transition(INTERRUPTED);
        return None;
      }
      if completedWork != requested || |keys| != completedWork {
        Transition(ABORTED);
        return Some(IncompleteDelta);
      }
      writes, checksum := completedWork, checksumOf(keys);
      Transition(VALIDATED);
      failure := None;
    }

    /** Ends an open round; a round that has ended keeps its phase but loses its prepared writes. */
    method Abort()
      requires Valid()
      modifies this
      ensures Valid() && writes == 0 && phase == if Terminal(old(phase)) then old(phase) else ABORTED
      ensures started == old(started) && completed == old(completed) && interrupted == old(interrupted)
    {
      if !Terminal(phase) {
        Transition(ABORTED);
      }
      writes, checksum := 0, 0;
    }

    function ReceiptOf(): (r: Option<Receipt>)
      requires Valid()
      reads this
      ensures r.Some? <==> Terminal(phase)
      ensures r.Some? ==> r.value.started == r.value.completed + r.value.interrupted && r.value.started <= r.value.reserved
      ensures r.Some? ==> r.value.reserved + r.value.remaining == r.value.limit
      ensures r.Some? && r.value.writes > 0 ==> r.value.phase.VALIDATED? && r.value.writes == r.value.requested
    {
      if !Terminal(phase) then None
      else Some(Receipt(phase, requested, limit, reserved, limit - reserved, started, completed, interrupted, writes, checksum, trace))
    }
  }

  /** No round has more than four phases, and one that was validated went through all of the first three. */
  lemma TraceIsShort(trace: seq<RoundPhase>)
    requires PhaseTrace(trace)
    ensures |trace| <= 4
    ensures trace[|trace| - 1].VALIDATED? ==> trace == [PREPARED, RESERVED, EVALUATING, VALIDATED]
  {
    if |trace| > 1 { assert Follows(trace[0], trace[1]); }
    if |trace| > 2 { assert Follows(trace[1], trace[2]); }
    if |trace| > 3 { assert Follows(trace[2], trace[3]); }
    assert |trace| > 4 ==> Follows(trace[3], trace[4]);
  }

  /** A validated receipt without writes is one that was aborted after it had been validated. */
  method AbortedValidation(checksumOf: seq<bv64> -> bv64) returns (r: Option<Receipt>)
    ensures r.Some? && r.value.phase.VALIDATED? && r.value.completed == 1 && r.value.writes == 0
  {
    var t := new PreparedRoundTransaction(1, 1, checksumOf);
    var failure := t.Reserve();
    failure := t.BeginEvaluation();
    failure := t.Resolve(1, 1, 0, [7]);
    t.Abort();
    r := t.ReceiptOf();
  }
}
