/** What a run is given: oracle, kernel and configuration, as functions of their arguments. */
module RuntimeContracts {
  import opened Options

  /** What is searched over: nothing but equality is known of either. */
  type Candidate(==, !new)
  type State(==, !new)

  /** The classes of exception the runtime tells apart. */
  datatype Fault = ContractFault | ValueFault | TypeFault | TimeoutFault | WorkerFault | CacheFault | OtherFault

  datatype Outcome = Evaluated(state: State) | Raised(fault: Fault)

  /** The oracle works element by element: `screen`, `work` and `evaluate` look at one candidate.  `validate` raises
      on an invalid state. */
  datatype Oracle = Oracle(key: Candidate -> string, screen: Candidate -> bool, work: Candidate -> int,
                           evaluate: Candidate -> Outcome, validate: State -> Option<Fault>, digest: State -> string,
                           internalParallelism: bool)

  /** The kernel; `propose` folds in the random tape of the round, and `None` stands for an exception. */
  datatype Kernel = Kernel(propose: (State, nat) -> Option<seq<Candidate>>, admissionLimit: Option<int>,
                           decide: (State, seq<Candidate>, seq<State>, nat) -> Outcome)

  datatype Mode = Serial | Barrier | Ordered

  /** Fixed work or a deadline, never both. */
  datatype Config = Config(mode: Mode, workers: nat, window: nat, fixedWork: Option<nat>, maxRounds: nat)

  predicate ValidConfig(c: Config) {
    && c.workers > 0 && (c.fixedWork.Some? ==> c.fixedWork.value > 0) && c.maxRounds > 0
    && (c.mode.Serial? ==> c.workers == 1 && c.window == 0) && (c.mode.Ordered? ==> c.window > 0)
  }
}
