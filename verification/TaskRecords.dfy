/**
 The stored record of one task, and what one successful store call makes of it.
 Both stores are specified against these functions, and the lifecycle protocol
 uses them as its atomic store calls.
 */
module TaskRecords {
  import opened TaskStates

  datatype StoreError =
    | NotFound
    | Conflict
    | InvalidRequest
    | IdempotencyConflict
    | DuplicateTask
    | UnfinishedLimitExceeded(limit: nat)
    | CapacityExceeded(requested: nat, available: nat)
    | OwnerConflict
    | Failure

  datatype StoreResult<+T> = Ok(value: T) | Err(error: StoreError)

  const MAX_OUTPUT_SUMMARY := 65536

  datatype Progress = Progress(attempt: nat, version: nat, detail: string)

  /** Immutable part of a task; `detail` stands for the metadata, resource request and payload identity. */
  datatype Request = Request(
    kindId: string,
    codecId: string,
    category: Option<string>,
    correlationKey: Option<string>,
    idempotencyKey: Option<string>,
    detail: string,
    payload: seq<bv8>)

  /** Mutable part of a task. */
  datatype Lifecycle = Lifecycle(
    state: TaskState,
    cancelRequested: bool,
    cancelError: Option<string>,
    stateVersion: nat,
    attempt: nat,
    retryNotBefore: Option<nat>,
    acceptedAt: nat,
    startedAt: Option<nat>,
    finishedAt: Option<nat>,
    progress: Option<Progress>,
    output: Option<string>)

  datatype StoredTask = StoredTask(request: Request, life: Lifecycle)

  datatype StartCommand = StartCommand(id: TaskId, expectedVersion: nat, startedAt: nat)

  datatype TransitionCommand = TransitionCommand(
    id: TaskId,
    expectedVersion: nat,
    expectedAttempt: nat,
    retryNotBefore: Option<nat>,
    state: TaskState,
    cancelRequested: bool,
    cancelError: Option<string>,
    finishedAt: Option<nat>,
    output: Option<string>)

  datatype ProgressCommand = ProgressCommand(id: TaskId, expectedAttempt: nat, version: nat, detail: string)

  function Accepted(now: nat): Lifecycle {
    Lifecycle(Queued, false, None, 0, 0, None, now, None, None, None, None)
  }

  // ---- start ----

  predicate CanStart(life: Lifecycle, cmd: StartCommand) {
    life.stateVersion == cmd.expectedVersion && life.state.Queued?
  }

  function Started(life: Lifecycle, cmd: StartCommand): Lifecycle {
    life.(state := Running, stateVersion := life.stateVersion + 1, attempt := life.attempt + 1,
          retryNotBefore := None, startedAt := Some(cmd.startedAt), finishedAt := None, progress := None)
  }

  /** One atomic `start_encoded` call on a retained record. */
  function StartResult(life: Lifecycle, cmd: StartCommand): StoreResult<Lifecycle> {
    if !CanStart(life, cmd) then Err(Conflict)
    else if life.stateVersion >= U64_MAX || life.attempt >= U32_MAX then Err(Failure)
    else Ok(Started(life, cmd))
  }

  // ---- transition ----

  /** The checks on a transition that look at neither the record nor the retry deadline. */
  predicate CommandFits(cmd: TransitionCommand) {
    && cmd.state.DiagnosticsFit()
    && (cmd.output.Some? ==> cmd.state.Succeeded? && |cmd.output.value| <= MAX_OUTPUT_SUMMARY)
  }

  predicate IsAnnotation(life: Lifecycle, cmd: TransitionCommand) {
    life.state.IsTerminal() && life.state == cmd.state && cmd.cancelRequested && cmd.cancelError.Some?
  }

  predicate CanTransition(life: Lifecycle, cmd: TransitionCommand) {
    && life.stateVersion == cmd.expectedVersion
    && life.attempt == cmd.expectedAttempt
    && (life.state.AllowsTransitionTo(cmd.state) || IsAnnotation(life, cmd))
  }

  function Transitioned(life: Lifecycle, cmd: TransitionCommand): Lifecycle {
    life.(state := cmd.state,
          retryNotBefore := cmd.retryNotBefore,
          stateVersion := life.stateVersion + 1,
          cancelRequested := cmd.cancelRequested,
          cancelError := cmd.cancelError,
          output := if cmd.output.Some? then cmd.output else life.output,
          finishedAt := if cmd.state.IsTerminal() && cmd.finishedAt.Some? then cmd.finishedAt else life.finishedAt)
  }

  predicate TransitionSucceeds(life: Lifecycle, cmd: TransitionCommand) {
    && CommandFits(cmd)
    && CanTransition(life, cmd)
    && !(cmd.output.Some? && life.state.IsTerminal())
    && (cmd.retryNotBefore.Some? ==> cmd.state.Queued?)
    && life.stateVersion < U64_MAX
  }

  /** One atomic `transition_encoded` call on a retained record. */
  function TransitionResult(life: Lifecycle, cmd: TransitionCommand): StoreResult<Lifecycle> {
    if TransitionSucceeds(life, cmd) then Ok(Transitioned(life, cmd))
    else if !CommandFits(cmd) then Err(InvalidRequest)
    else if !CanTransition(life, cmd) then Err(Conflict)
    else if cmd.output.Some? && life.state.IsTerminal() then Err(InvalidRequest)
    else if cmd.retryNotBefore.Some? && !cmd.state.Queued? then Err(InvalidRequest)
    else Err(Failure)
  }

  // ---- progress ----

  predicate CanProgress(life: Lifecycle, cmd: ProgressCommand) {
    && life.state.Running?
    && life.attempt == cmd.expectedAttempt
    && (life.progress.Some? ==> life.progress.value.version < cmd.version)
  }

  function Progressed(life: Lifecycle, cmd: ProgressCommand): Lifecycle {
    life.(progress := Some(Progress(cmd.expectedAttempt, cmd.version, cmd.detail)))
  }

  // ---- what a commit may change ----

  /** Equal up to the progress snapshot, which is written without raising the version. */
  predicate SameRevision(a: Lifecycle, b: Lifecycle) {
    a.(progress := None) == b.(progress := None)
  }

  /** `next` is one committed revision after `prev`. */
  predicate NextRevision(prev: Lifecycle, next: Lifecycle) {
    && next.stateVersion == prev.stateVersion + 1
    && next.acceptedAt == prev.acceptedAt
    && prev.attempt <= next.attempt <= prev.attempt + 1
    && (next.attempt == prev.attempt + 1 ==> prev.state.Queued? && next.state.Running?)
    && (prev.state.IsTerminal() ==> next.state == prev.state && next.output == prev.output && next.attempt == prev.attempt)
    && (!prev.state.IsTerminal() ==> prev.state.AllowsTransitionTo(next.state))
  }

  lemma StartIsNextRevision(life: Lifecycle, cmd: StartCommand)
    requires StartResult(life, cmd).Ok?
    ensures NextRevision(life, StartResult(life, cmd).value)
  {
  }

  lemma TransitionIsNextRevision(life: Lifecycle, cmd: TransitionCommand)
    requires TransitionResult(life, cmd).Ok?
    ensures NextRevision(life, TransitionResult(life, cmd).value)
  {
    TerminalIsStuck(life.state);
  }

  /**
   A terminal record accepts nothing but a late hook error on a persisted request, and
   keeps all but the error and the finish time.
   */
  lemma TerminalAnnotation(life: Lifecycle, cmd: TransitionCommand)
    requires life.state.IsTerminal()
    ensures TransitionResult(life, cmd).Ok? <==>
      && life.stateVersion == cmd.expectedVersion < U64_MAX && life.attempt == cmd.expectedAttempt
      && cmd.state == life.state && cmd.state.DiagnosticsFit() && cmd.cancelRequested && cmd.cancelError.Some?
      && cmd.output.None? && cmd.retryNotBefore.None?
    ensures TransitionResult(life, cmd).Ok? ==>
      TransitionResult(life, cmd).value
      == life.(stateVersion := life.stateVersion + 1, cancelRequested := true, cancelError := cmd.cancelError,
               retryNotBefore := None, finishedAt := if cmd.finishedAt.Some? then cmd.finishedAt else life.finishedAt)
  {
    TerminalIsStuck(life.state);
  }
}
