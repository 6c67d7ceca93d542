/** How evaluations are run and in what order they finish has no part in a run. */
module ScheduleIndependence {
  import opened RuntimeContracts
  import opened Admission
  import opened Evaluation
  import opened WorkLedger
  import opened SemanticTrace
  import opened RoundModel
  import opened TxnRuntime

  /** The same weather, with evaluations finishing in another order. */
  ghost predicate SameWeather(w: Weather, v: Weather) { v == w.(choose := v.choose) }

  /** The same work and rounds, evaluated in any mode with any number of workers and any window. */
  ghost predicate SamePolicy(c: Config, d: Config) { c.fixedWork == d.fixedWork && c.maxRounds == d.maxRounds }

  lemma CommitFree(k: Kernel, o: Oracle, pos: Position, t: Ticket, admitted: seq<Candidate>, resolved: seq<State>,
                   staged: map<string, State>, round: nat, w: Weather, v: Weather)
    requires SameWeather(w, v)
    ensures PublishOf(k, o, pos, t, admitted, resolved, staged, round, w)
      == PublishOf(k, o, pos, t, admitted, resolved, staged, round, v)
  {
    hide IsDigest;
    forall next ensures CommitOf(o, pos, t, next, staged, w) == CommitOf(o, pos, t, next, staged, v) { }
  }

  lemma EvaluateFree(k: Kernel, o: Oracle, c: Config, d: Config, pos: Position, t: Ticket, admitted: seq<Candidate>,
                     work: seq<nat>, round: nat, w: Weather, v: Weather)
    requires SamePolicy(c, d) && SameWeather(w, v) && |t.keys| == |admitted|
    ensures EvaluateOf(k, o, c, pos, t, admitted, work, round, w) == EvaluateOf(k, o, d, pos, t, admitted, work, round, v)
  {
    hide ResolveOf, EvaluateRange, Missing, At, Staged, Total;
    var missing := Missing(t.keys, pos.values);
    TraceCompleteness.MissingCovered(t.keys, pos.values);
    match EvaluateAll(Batch(o, At(admitted, missing), w.fault))
    case Failure(_) =>
    case Values(states) =>
      ResolveFree(k, o, c, d, pos.(started := pos.started + Total(work)), t, admitted, missing != [],
                  Staged(At(t.keys, missing), states), round, w, v);
  }

  lemma ResolveFree(k: Kernel, o: Oracle, c: Config, d: Config, pos: Position, t: Ticket, admitted: seq<Candidate>, observed: bool,
                    staged: map<string, State>, round: nat, w: Weather, v: Weather)
    requires SamePolicy(c, d) && SameWeather(w, v)
    requires forall i | 0 <= i < |t.keys| :: t.keys[i] in pos.values || t.keys[i] in staged
    ensures ResolveOf(k, o, c, pos, t, admitted, observed, staged, round, w)
      == ResolveOf(k, o, d, pos, t, admitted, observed, staged, round, v)
  {
    hide PublishOf, FirstInvalid;
    CommitFree(k, o, Log(pos, PhaseEvent(t, VALIDATED)), t, admitted, Resolved(t.keys, pos.values, staged), staged, round, w, v);
  }

  lemma ReserveFree(k: Kernel, o: Oracle, c: Config, d: Config, pos: Position, t: Ticket, admitted: seq<Candidate>,
                    round: nat, w: Weather, v: Weather)
    requires SamePolicy(c, d) && SameWeather(w, v) && |t.keys| == |admitted|
    ensures ReserveOf(k, o, c, pos, t, admitted, round, w) == ReserveOf(k, o, d, pos, t, admitted, round, v)
  {
    hide EvaluateOf, Missing, At, WorkOf, Total;
    var work := WorkOf(o, At(admitted, Missing(t.keys, pos.values)));
    if work.Some? {
      EvaluateFree(k, o, c, d, Log(Log(pos, PhaseEvent(t, RESERVED)), PhaseEvent(t, EVALUATING)), t, admitted, work.value, round, w, v);
    }
  }

  lemma RoundFree(k: Kernel, o: Oracle, c: Config, d: Config, pos: Position, round: nat, w: Weather, v: Weather)
    requires SamePolicy(c, d) && SameWeather(w, v)
    ensures RoundOf(k, o, c, pos, round, w) == RoundOf(k, o, d, pos, round, v)
  {
    hide ReserveOf, AdmissionOf;
    forall at: Position, t: Ticket, admitted: seq<Candidate> | |t.keys| == |admitted|
      ensures ReserveOf(k, o, c, at, t, admitted, round, w) == ReserveOf(k, o, d, at, t, admitted, round, v)
    {
      ReserveFree(k, o, c, d, at, t, admitted, round, w, v);
    }
  }

  /** Runs under different modes, workers, windows and finishing orders go through the same rounds to the same end. */
  lemma {:induction false} RunsAgree(k: Kernel, o: Oracle, c: Config, d: Config, pos: Position, round: nat,
                                     weather: nat -> Weather, other: nat -> Weather)
    requires SamePolicy(c, d) && forall i: nat :: SameWeather(weather(i), other(i))
    ensures RunFrom(k, o, c, pos, round, weather) == RunFrom(k, o, d, pos, round, other)
    decreases c.maxRounds - round
  {
    hide RoundOf;
    if round < c.maxRounds {
      assert SameWeather(weather(round), other(round));
      RoundFree(k, o, c, d, pos, round, weather(round), other(round));
      RunsAgree(k, o, c, d, RoundOf(k, o, c, pos, round, weather(round)).position, round + 1, weather, other);
    }
  }

  /** Two real runs with the same inputs and faults: final state, reason and whole trace are the same. */
  method SameResult(k: Kernel, o: Oracle, c: Config, d: Config, initial: State, seed: nat, weather: nat -> Weather, other: nat -> Weather)
    returns (r: RunResult, q: RunResult)
    requires ValidConfig(c) && ValidConfig(d) && SamePolicy(c, d) && forall i: nat :: SameWeather(weather(i), other(i))
    ensures r == q
  {
    hide RunFrom;
    var left, right;
    r, left := Run(k, o, c, initial, seed, weather);
    q, right := Run(k, o, d, initial, seed, other);
    RunsAgree(k, o, c, d, StartOf(o, initial, seed), 0, weather, other);
  }
}
