/** The job state machine table and the error catalogue
    (cad2ml/jobs/states.py, cad2ml/errors.py, `outcome_state` of cad2ml/jobs/service.py). */
module JobStates {

  datatype JobState =
    | Received | Validated | Queued
    | Parsing | Normalizing | Extracting | ValidatingOutputs | Training
    | Completed | Rejected | FailedRetryable | FailedTerminal | TimedOut | Quarantined

  const IN_FLIGHT: set<JobState> := {Parsing, Normalizing, Extracting, ValidatingOutputs, Training}
  const TERMINAL: set<JobState> := {Completed, Rejected, FailedTerminal, TimedOut, Quarantined}
  const FAIL: set<JobState> := {Rejected, FailedRetryable, FailedTerminal, TimedOut, Quarantined}

  function Transitions(s: JobState): set<JobState> {
    match s
    case Received => {Validated, Rejected, FailedTerminal}
    case Validated => {Queued, FailedTerminal}
    case Queued => {Parsing, Training, Completed} + FAIL
    case Training => {Completed} + FAIL
    case Parsing => {Normalizing, Completed} + FAIL
    case Normalizing => {Extracting} + FAIL
    case Extracting => {ValidatingOutputs} + FAIL
    case ValidatingOutputs => {Completed} + FAIL
    case FailedRetryable => {Queued, FailedTerminal}
    case Completed => {}
    case Rejected => {}
    case FailedTerminal => {}
    case TimedOut => {}
    case Quarantined => {}
  }

  /** `check_transition` does not raise. */
  predicate Allowed(src: JobState, dst: JobState) {
    dst in Transitions(src)
  }

  /** The steps left inside one attempt, for every state a job can be in. It falls along every
      entry of the table except the ones that leave `Queued` or re-enter it. */
  function Rank(s: JobState): nat {
    match s
    case Received => 2
    case Validated => 1
    case Queued => 0
    case Parsing => 5
    case Normalizing => 4
    case Extracting => 3
    case ValidatingOutputs => 2
    case Training => 2
    case FailedRetryable => 1
    case _ => 0
  }

  // ---- the error catalogue ----------------------------------------------------------------

  datatype Outcome = ORejected | OQuarantined | OFailedTerminal | OFailedRetryable | OTimedOut

  datatype ErrorCode =
    | EmptyFile | FileTooLarge | UnsupportedExtension | NotStepContent
    | StepParseFailed | StepNoShapes | UnsupportedAssembly | UnsupportedTessellated | MultiBody
    | NoSolid | InvalidGeometry | RepairDeviationExceeded | DegenerateGeometry | TessellationFailed
    | OutputInvariantViolation | ParserTimeout | ProcessingTimeout | ChildCrashed
    | StorageIoError | WorkerLost | InternalError

  function OutcomeOf(code: ErrorCode): Outcome {
    match code
    case EmptyFile | FileTooLarge | UnsupportedExtension | NotStepContent => ORejected
    case StepParseFailed | StepNoShapes | UnsupportedAssembly | UnsupportedTessellated | MultiBody => ORejected
    case NoSolid | InvalidGeometry | RepairDeviationExceeded | DegenerateGeometry => OQuarantined
    case TessellationFailed | ChildCrashed => OQuarantined
    case OutputInvariantViolation | InternalError => OFailedTerminal
    case ParserTimeout | ProcessingTimeout => OTimedOut
    case StorageIoError | WorkerLost => OFailedRetryable
  }

  /** The catalogue's own `retryable` column. */
  function Retryable(code: ErrorCode): bool {
    code == StorageIoError || code == WorkerLost
  }

  function OutcomeState(code: ErrorCode): JobState {
    match OutcomeOf(code)
    case ORejected => Rejected
    case OQuarantined => Quarantined
    case OTimedOut => TimedOut
    case OFailedRetryable => FailedRetryable
    case OFailedTerminal => FailedTerminal
  }

  /** What is wrong with the input, as far as the contract of the pipeline goes. */
  const OUTSIDE_CONTRACT: set<ErrorCode> :=
    {EmptyFile, FileTooLarge, UnsupportedExtension, NotStepContent, StepParseFailed, StepNoShapes,
     UnsupportedAssembly, UnsupportedTessellated, MultiBody}

  /** What makes an input unsafe to process: its geometry, or that it brings the child down. */
  const UNSAFE: set<ErrorCode> :=
    {NoSolid, InvalidGeometry, RepairDeviationExceeded, DegenerateGeometry, TessellationFailed, ChildCrashed}

  /** Where each code leads: an input outside the contract is rejected, an unsafe one quarantined, a hard
      timeout timed out, a transient fault retried, and what is the program's own fault fails for good. */
  lemma FailureMeans(code: ErrorCode)
    ensures OutcomeState(code) == Rejected <==> code in OUTSIDE_CONTRACT
    ensures OutcomeState(code) == Quarantined <==> code in UNSAFE
    ensures OutcomeState(code) == TimedOut <==> code in {ParserTimeout, ProcessingTimeout}
    ensures OutcomeState(code) == FailedRetryable <==> code in {StorageIoError, WorkerLost}
    ensures OutcomeState(code) == FailedTerminal <==> code in {OutputInvariantViolation, InternalError}
  {
  }

  /** Every failure code has a legal target from every in-flight state, and the job is retried
      exactly when the catalogue marks the code retryable. */
  lemma FailureTargets(code: ErrorCode, s: JobState)
    requires s in IN_FLIGHT
    ensures Allowed(s, OutcomeState(code))
    ensures OutcomeState(code) == FailedRetryable <==> Retryable(code)
    ensures OutcomeState(code) != FailedRetryable ==> OutcomeState(code) in TERMINAL
  {
    assert OutcomeState(code) in FAIL;
  }

  lemma TerminalIsFinal(s: JobState)
    ensures s in TERMINAL <==> Transitions(s) == {}
  {
    assert s !in TERMINAL ==> FailedTerminal in Transitions(s);
  }
}
