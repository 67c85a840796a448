/**
 The task lifecycle protocol. Submitters, the scheduler, finishing handlers,
 cancellers, external hook flights, operators resuming blocked tasks and crash
 recovery all work the same way: read a record, decide on a command, and later
 write it with a compare-and-set on the version (and attempt). Anything may
 happen between the read and the write, including a restart of the process.

 One event is one atomic step. An event whose guard does not hold changes
 nothing, so every sequence of events is an execution.
 */
module Lifecycle {
  import opened TaskStates
  import opened TaskRecords
  import opened RetryPolicies

  datatype Config = Config(maxAttempts: nat, retryPolicy: RetryPolicy)
  {
    predicate Valid() {
      maxAttempts >= 1 && retryPolicy.Valid()
    }
  }

  /** Who decided on a write, with what it carries besides the record it saw. */
  datatype Origin =
    | Starting(now: nat)
    | Blocking(reason: string)
    | Finishing(attempt: nat, outcome: TaskState, output: Option<string>, retryable: bool, now: nat)
    | CancellingBeforeStart(now: nat)
    | RequestingCancel
    | Hooking(attempt: nat, error: Option<string>)
    | Resuming
    | RecoveringRun

  /** A store write decided from the record `seen` and not executed yet. */
  datatype Write = Write(id: TaskId, origin: Origin, seen: Lifecycle)

  datatype Phase = Recovering | Serving

  datatype System = System(
    records: map<TaskId, Lifecycle>,
    issued: set<TaskId>,            // every id ever accepted
    phase: Phase,
    writes: set<Write>,             // in flight; equal writes are one, the second would conflict
    handlers: set<(TaskId, nat)>,   // attempts with a live handler
    starts: seq<(TaskId, nat)>,     // log of attempts started
    restarts: nat)

  datatype Event =
    | Accept(id: TaskId, now: nat)
    | Decide(id: TaskId, origin: Origin)
    | Execute(write: Write)
    | Abandon(write: Write)
    | Report(cmd: ProgressCommand)
    | Prune(id: TaskId)
    | Serve
    | Restart

  const INITIAL := System(map[], {}, Recovering, {}, {}, [], 0)

  /** The finish command retries only a retryable failure that nobody asked to cancel. */
  predicate Retries(cfg: Config, origin: Origin, seen: Lifecycle)
    requires origin.Finishing?
  {
    origin.retryable && !seen.cancelRequested && origin.attempt < cfg.maxAttempts
  }

  /** Conditions under which an actor, having read `seen`, goes on to write. */
  predicate Decides(s: System, id: TaskId, origin: Origin, seen: Lifecycle) {
    match origin
    case Starting(now) =>
      s.phase.Serving? && seen.state.Queued? && (seen.retryNotBefore.Some? ==> seen.retryNotBefore.value <= now)
    case Blocking(_) => s.phase.Serving? && seen.state.Queued?
    case Finishing(attempt, outcome, _, _, _) =>
      (id, attempt) in s.handlers && outcome.IsTerminal() && !seen.state.IsTerminal()
    case CancellingBeforeStart(_) => s.phase.Serving? && (seen.state.Queued? || seen.state.Blocked?)
    case RequestingCancel => s.phase.Serving? && seen.state.Running? && !seen.cancelRequested
    case Hooking(attempt, _) => s.phase.Serving? && seen.state.Running? && seen.attempt == attempt
    case Resuming => s.phase.Serving? && seen.state.Blocked? && !seen.cancelRequested
    case RecoveringRun => s.phase.Recovering? && seen.state.Running?
  }

  function Transition(id: TaskId, seen: Lifecycle, attempt: nat, state: TaskState, cancelRequested: bool): TransitionCommand {
    TransitionCommand(id, seen.stateVersion, attempt, None, state, cancelRequested, None, None, None)
  }

  function FinishCommand(cfg: Config, id: TaskId, origin: Origin, seen: Lifecycle): TransitionCommand
    requires origin.Finishing?
  {
    var retry := Retries(cfg, origin, seen);
    TransitionCommand(
      id, seen.stateVersion, origin.attempt,
      if retry then Some(RetryDeadline(cfg.retryPolicy, origin.attempt, origin.now)) else None,
      if retry then Queued else origin.outcome,
      seen.cancelRequested, seen.cancelError, Some(origin.now), origin.output)
  }

  function RecoverCommand(id: TaskId, seen: Lifecycle): TransitionCommand {
    Transition(id, seen, seen.attempt,
               if seen.cancelRequested then Blocked("service stopped while cancellation was pending") else Queued,
               seen.cancelRequested).(cancelError := seen.cancelError)
  }

  /** The transition an actor writes; a start is not a transition. */
  function CommandOf(cfg: Config, w: Write): TransitionCommand
    requires !w.origin.Starting?
  {
    match w.origin
    case Blocking(reason) => Transition(w.id, w.seen, w.seen.attempt, Blocked(reason), false)
    case Finishing(_, _, _, _, _) => FinishCommand(cfg, w.id, w.origin, w.seen)
    case CancellingBeforeStart(now) =>
      Transition(w.id, w.seen, w.seen.attempt, Cancelled, false).(finishedAt := Some(now))
    case RequestingCancel => Transition(w.id, w.seen, w.seen.attempt, Running, true)
    case Hooking(attempt, error) => Transition(w.id, w.seen, attempt, Running, true).(cancelError := error)
    case Resuming => Transition(w.id, w.seen, w.seen.attempt, Queued, false)
    case RecoveringRun => RecoverCommand(w.id, w.seen)
  }

  function WriteResult(cfg: Config, w: Write, life: Lifecycle): StoreResult<Lifecycle> {
    if w.origin.Starting? then StartResult(life, StartCommand(w.id, w.seen.stateVersion, w.origin.now))
    else TransitionResult(life, CommandOf(cfg, w))
  }

  function Step(cfg: Config, s: System, e: Event): System {
    match e
    case Accept(id, now) =>
      if s.phase.Serving? && id !in s.issued
      then s.(records := s.records[id := Accepted(now)], issued := s.issued + {id}) else s
    case Decide(id, origin) =>
      if id !in s.records || !Decides(s, id, origin, s.records[id]) then s
      else s.(writes := s.writes + {Write(id, origin, s.records[id])},
              handlers := if origin.Finishing? then s.handlers - {(id, origin.attempt)} else s.handlers)
    case Execute(w) =>
      if w !in s.writes then s
      else
        var s1 := s.(writes := s.writes - {w});
        if w.id !in s.records || WriteResult(cfg, w, s.records[w.id]).Err? then s1
        else
          var life := WriteResult(cfg, w, s.records[w.id]).value;
          var s2 := s1.(records := s.records[w.id := life]);
          if w.origin.Starting?
          then s2.(handlers := s.handlers + {(w.id, life.attempt)}, starts := s.starts + [(w.id, life.attempt)])
          else s2
    case Abandon(w) => s.(writes := s.writes - {w})
    case Report(cmd) =>
      if cmd.id in s.records && CanProgress(s.records[cmd.id], cmd)
      then s.(records := s.records[cmd.id := Progressed(s.records[cmd.id], cmd)]) else s
    case Prune(id) =>
      if id in s.records && s.records[id].state.IsTerminal() then s.(records := s.records - {id}) else s
    case Serve =>
      if s.writes == {} && forall id :: id in s.records ==> !s.records[id].state.Running?
      then s.(phase := Serving) else s
    case Restart => s.(phase := Recovering, writes := {}, handlers := {}, restarts := s.restarts + 1)
  }

  function Exec(cfg: Config, es: seq<Event>): System {
    if es == [] then INITIAL else Step(cfg, Exec(cfg, es[..|es| - 1]), es[|es| - 1])
  }

  // ---- invariant ----

  /** What an actor saw is still true unless the record has moved on to a higher version. */
  predicate WriteOk(s: System, w: Write) {
    && w.id in s.issued
    && DecisionOk(w)
    && (w.id in s.records ==>
          var life := s.records[w.id];
          w.seen.stateVersion <= life.stateVersion
          && (w.seen.stateVersion == life.stateVersion ==> SameRevision(w.seen, life)))
  }

  /** The part of `Decides` that only concerns the record seen. */
  predicate DecisionOk(w: Write) {
    match w.origin
    case Starting(now) => w.seen.state.Queued? && (w.seen.retryNotBefore.Some? ==> w.seen.retryNotBefore.value <= now)
    case Blocking(_) => w.seen.state.Queued?
    case Finishing(attempt, outcome, _, _, _) => attempt >= 1 && outcome.IsTerminal() && !w.seen.state.IsTerminal()
    case CancellingBeforeStart(_) => w.seen.state.Queued? || w.seen.state.Blocked?
    case RequestingCancel => w.seen.state.Running? && !w.seen.cancelRequested
    case Hooking(attempt, _) => w.seen.state.Running? && w.seen.attempt == attempt
    case Resuming => w.seen.state.Blocked? && !w.seen.cancelRequested
    case RecoveringRun => w.seen.state.Running?
  }

  /** Attempt budget, cancellation flag and output of one record. */
  predicate RecordOk(cfg: Config, s: System, life: Lifecycle) {
    var budget := cfg.maxAttempts + s.restarts;
    && (life.attempt == 0 ==> life.state.Queued? || life.state.Blocked? || life.state.Cancelled?)
    && (!life.state.Succeeded? ==> life.output.None?)
    && (life.state.Queued? ==> !life.cancelRequested && life.attempt < budget)
    && (life.state.Blocked? && !life.cancelRequested ==> life.attempt < budget)
    && (life.state.Running? && s.phase.Recovering? ==> life.attempt < budget)
    && life.attempt <= budget
  }

  /** Attempts of `id` in the start log, in order. */
  function AttemptsOf(starts: seq<(TaskId, nat)>, id: TaskId): seq<nat> {
    if starts == [] then []
    else
      var rest := AttemptsOf(starts[..|starts| - 1], id);
      if starts[|starts| - 1].0 == id then rest + [starts[|starts| - 1].1] else rest
  }

  /** The attempts started so far are 1, 2, ..., up to the current one. */
  predicate LogOk(s: System, id: TaskId) {
    var log := AttemptsOf(s.starts, id);
    && (forall i :: 0 <= i < |log| ==> log[i] == i + 1)
    && (id in s.records ==> |log| == s.records[id].attempt)
    && (id !in s.issued ==> log == [])
  }

  /** A live handler belongs to the running attempt of a retained task. */
  predicate HandlerOk(s: System, h: (TaskId, nat)) {
    h.0 in s.records && s.records[h.0].state.Running? && s.records[h.0].attempt == h.1
  }

  /** A handler is gone once its finish is under way. */
  predicate FinishOk(s: System, w: Write) {
    w.origin.Finishing? ==>
      (w.id, w.origin.attempt) !in s.handlers
      && (w.id in s.records ==> w.origin.attempt <= s.records[w.id].attempt)
  }

  ghost predicate Inv(cfg: Config, s: System) {
    && s.records.Keys <= s.issued
    && (forall w :: w in s.writes ==> WriteOk(s, w) && FinishOk(s, w))
    && (forall id :: id in s.records ==> RecordOk(cfg, s, s.records[id]))
    && (forall h :: h in s.handlers ==> HandlerOk(s, h))
    && (forall id: TaskId :: LogOk(s, id))
    && (s.phase.Recovering? ==> s.handlers == {} && forall w :: w in s.writes ==> w.origin.RecoveringRun?)
    && (s.phase.Serving? ==> forall w :: w in s.writes ==> !w.origin.RecoveringRun?)
  }

  /** A write that takes effect acts on the very record its actor saw. */
  lemma WriteSeesRecord(cfg: Config, s: System, w: Write)
    requires Inv(cfg, s) && w in s.writes && w.id in s.records && WriteResult(cfg, w, s.records[w.id]).Ok?
    ensures SameRevision(w.seen, s.records[w.id])
    ensures NextRevision(s.records[w.id], WriteResult(cfg, w, s.records[w.id]).value)
  {
    assert WriteOk(s, w);
    if w.origin.Starting? {
      StartIsNextRevision(s.records[w.id], StartCommand(w.id, w.seen.stateVersion, w.origin.now));
    } else {
      TransitionIsNextRevision(s.records[w.id], CommandOf(cfg, w));
    }
  }

  /** The written record keeps the attempt budget and the cancellation flag. */
  lemma WrittenRecordOk(cfg: Config, s: System, w: Write)
    requires Inv(cfg, s) && w in s.writes && w.id in s.records && WriteResult(cfg, w, s.records[w.id]).Ok?
    ensures RecordOk(cfg, s, WriteResult(cfg, w, s.records[w.id]).value)
  {
    WriteSeesRecord(cfg, s, w);
    assert WriteOk(s, w) && RecordOk(cfg, s, s.records[w.id]);
  }

  lemma ExecuteKeepsInv(cfg: Config, s: System, w: Write)
    requires cfg.Valid() && Inv(cfg, s) && w in s.writes
    ensures Inv(cfg, Step(cfg, s, Execute(w)))
  {
    if w.id in s.records && WriteResult(cfg, w, s.records[w.id]).Ok? {
      WriteSeesRecord(cfg, s, w);
      WrittenRecordOk(cfg, s, w);
      var t := Step(cfg, s, Execute(w));
      forall id: TaskId ensures LogOk(t, id) {
        assert LogOk(s, id);
        if w.origin.Starting? {
          assert t.starts[..|t.starts| - 1] == s.starts;
        }
      }
    } else {
      var t := Step(cfg, s, Execute(w));
      forall id: TaskId ensures LogOk(t, id) {
        assert LogOk(s, id);
      }
    }
  }

  lemma StepKeepsInv(cfg: Config, s: System, e: Event)
    requires cfg.Valid() && Inv(cfg, s)
    ensures Inv(cfg, Step(cfg, s, e))
  {
    if e.Execute? && e.write in s.writes {
      ExecuteKeepsInv(cfg, s, e.write);
    } else {
      var t := Step(cfg, s, e);
      forall id: TaskId ensures LogOk(t, id) {
        assert LogOk(s, id);
      }
    }
  }

  lemma {:induction false} InvHolds(cfg: Config, es: seq<Event>)
    requires cfg.Valid()
    ensures Inv(cfg, Exec(cfg, es))
  {
    if es != [] {
      InvHolds(cfg, es[..|es| - 1]);
      StepKeepsInv(cfg, Exec(cfg, es[..|es| - 1]), es[|es| - 1]);
    }
  }

  // ---- history shape ----

  /** What is true of two successive revisions of one record, however far apart. */
  predicate LaterRecord(a: Lifecycle, b: Lifecycle) {
    && a.stateVersion <= b.stateVersion
    && a.attempt <= b.attempt
    && a.acceptedAt == b.acceptedAt
    && (a.stateVersion == b.stateVersion ==> SameRevision(a, b))
    && (a.state.IsTerminal() ==> b.state == a.state && b.output == a.output && b.attempt == a.attempt)
  }

  ghost predicate Later(s: System, t: System) {
    && s.issued <= t.issued
    && s.starts <= t.starts
    && (forall id :: id in s.issued && id in t.records ==> id in s.records && LaterRecord(s.records[id], t.records[id]))
  }

  /** One event changes a record by nothing, by a progress snapshot, or by exactly one revision. */
  lemma StepShape(cfg: Config, s: System, e: Event, id: TaskId)
    requires cfg.Valid() && Inv(cfg, s) && id in s.records && id in Step(cfg, s, e).records
    ensures var a, b := s.records[id], Step(cfg, s, e).records[id];
      SameRevision(a, b) || NextRevision(a, b)
  {
    if e.Execute? && e.write in s.writes && e.write.id == id && WriteResult(cfg, e.write, s.records[id]).Ok? {
      WriteSeesRecord(cfg, s, e.write);
    }
  }

  lemma StepIsLater(cfg: Config, s: System, e: Event)
    requires cfg.Valid() && Inv(cfg, s)
    ensures Later(s, Step(cfg, s, e))
  {
    var t := Step(cfg, s, e);
    forall id | id in s.issued && id in t.records
      ensures id in s.records && LaterRecord(s.records[id], t.records[id])
    {
      StepShape(cfg, s, e, id);
    }
  }

  /** Versions and attempts never fall, and terminal states and outputs never change, for the rest of every run. */
  lemma {:induction false} HistoryShape(cfg: Config, es: seq<Event>, i: nat)
    requires cfg.Valid() && i <= |es|
    ensures Later(Exec(cfg, es[..i]), Exec(cfg, es))
    decreases |es|
  {
    if i == |es| {
      assert es[..i] == es;
    } else {
      var prefix := es[..|es| - 1];
      assert prefix[..i] == es[..i];
      HistoryShape(cfg, prefix, i);
      InvHolds(cfg, prefix);
      StepIsLater(cfg, Exec(cfg, prefix), es[|es| - 1]);
    }
  }

  /** Attempts are numbered without gaps or repeats and stay within the budget: one more per restart. */
  lemma AttemptBound(cfg: Config, es: seq<Event>, id: TaskId)
    requires cfg.Valid()
    ensures var s := Exec(cfg, es);
      && (id in s.records ==> s.records[id].attempt <= cfg.maxAttempts + s.restarts)
      && (id in s.records ==> |AttemptsOf(s.starts, id)| == s.records[id].attempt)
      && forall i :: 0 <= i < |AttemptsOf(s.starts, id)| ==> AttemptsOf(s.starts, id)[i] == i + 1
  {
    InvHolds(cfg, es);
    assert LogOk(Exec(cfg, es), id);
  }

  /** A task never has two live handlers, and a live handler's attempt is the one recorded as running. */
  lemma OneHandlerPerTask(cfg: Config, es: seq<Event>, h: (TaskId, nat), h': (TaskId, nat))
    requires cfg.Valid() && h in Exec(cfg, es).handlers && h' in Exec(cfg, es).handlers && h.0 == h'.0
    ensures h == h' && HandlerOk(Exec(cfg, es), h)
  {
    InvHolds(cfg, es);
  }

  /** A finish requeues exactly when it may retry, and then with the deadline of the attempt that failed. */
  lemma RequeueUsesBackoff(cfg: Config, s: System, w: Write)
    requires cfg.Valid() && Inv(cfg, s) && w in s.writes && w.origin.Finishing? && w.id in s.records
    requires WriteResult(cfg, w, s.records[w.id]).Ok?
    ensures var before, after := s.records[w.id], Step(cfg, s, Execute(w)).records[w.id];
      && before.attempt == w.origin.attempt
      && (after.state.Queued? <==> w.origin.retryable && !before.cancelRequested && before.attempt < cfg.maxAttempts)
      && (after.state.Queued? ==>
            after.retryNotBefore == Some(RetryDeadline(cfg.retryPolicy, before.attempt, w.origin.now)))
      && (!after.state.Queued? ==> after.state == w.origin.outcome && after.cancelRequested == before.cancelRequested)
  {
    WriteSeesRecord(cfg, s, w);
  }

  // ---- what each actor's write does to the record ----

  /** Executing `w` now commits it: the record moves on to another version. */
  predicate TakesEffect(cfg: Config, s: System, w: Write) {
    && w in s.writes && w.id in s.records
    && Step(cfg, s, Execute(w)).records[w.id].stateVersion != s.records[w.id].stateVersion
  }

  function After(cfg: Config, s: System, w: Write): Lifecycle
    requires TakesEffect(cfg, s, w)
  {
    Step(cfg, s, Execute(w)).records[w.id]
  }

  lemma EffectIsResult(cfg: Config, s: System, w: Write)
    requires Inv(cfg, s) && TakesEffect(cfg, s, w)
    ensures WriteResult(cfg, w, s.records[w.id]) == Ok(After(cfg, s, w))
    ensures SameRevision(w.seen, s.records[w.id]) && DecisionOk(w)
    ensures NextRevision(s.records[w.id], After(cfg, s, w))
  {
    WriteSeesRecord(cfg, s, w);
  }

  /**
   A cancel call and a hook flight leave the task running at its attempt, with the request
   and exactly the hook's error.
   */
  lemma CancelEffect(cfg: Config, s: System, w: Write)
    requires cfg.Valid() && Inv(cfg, s) && TakesEffect(cfg, s, w) && (w.origin.RequestingCancel? || w.origin.Hooking?)
    ensures var before, after := s.records[w.id], After(cfg, s, w);
      && before.state.Running? && after.state.Running? && after.attempt == before.attempt
      && after.cancelRequested && after.cancelError == (if w.origin.Hooking? then w.origin.error else None)
      && after.startedAt == before.startedAt && after.progress == before.progress
  {
    EffectIsResult(cfg, s, w);
  }

  /**
   A cancel before the start ends the task, a resume queues it at once, a block keeps the
   reason; none of them counts an attempt.
   */
  lemma OperatorEffect(cfg: Config, s: System, w: Write)
    requires cfg.Valid() && Inv(cfg, s) && TakesEffect(cfg, s, w)
    ensures var before, after := s.records[w.id], After(cfg, s, w);
      && (w.origin.CancellingBeforeStart? ==>
            (before.state.Queued? || before.state.Blocked?) && after.state.Cancelled? && after.finishedAt == Some(w.origin.now))
      && (w.origin.Resuming? ==>
            before.state.Blocked? && after.state.Queued? && after.retryNotBefore.None? && !after.cancelRequested)
      && (w.origin.Blocking? ==> before.state.Queued? && after.state == Blocked(w.origin.reason) && !after.cancelRequested)
      && (w.origin.CancellingBeforeStart? || w.origin.Resuming? || w.origin.Blocking? ==> after.attempt == before.attempt)
  {
    EffectIsResult(cfg, s, w);
  }

  /**
   A start runs the next attempt of a queued task that is due, from a clean slate, at the
   scheduler's time, with a live handler.
   */
  lemma StartEffect(cfg: Config, s: System, w: Write)
    requires cfg.Valid() && Inv(cfg, s) && TakesEffect(cfg, s, w) && w.origin.Starting?
    ensures var before, after := s.records[w.id], After(cfg, s, w);
      && before.state.Queued? && after.state.Running? && after.attempt == before.attempt + 1
      && (before.retryNotBefore.Some? ==> before.retryNotBefore.value <= w.origin.now)
      && after.startedAt == Some(w.origin.now) && after.finishedAt.None? && after.progress.None?
      && after.retryNotBefore.None? && !after.cancelRequested && after.output.None?
      && (w.id, after.attempt) in Step(cfg, s, Execute(w)).handlers
      && Step(cfg, s, Execute(w)).starts == s.starts + [(w.id, after.attempt)]
  {
    EffectIsResult(cfg, s, w);
  }

  /**
   A finish requeues exactly a retryable failure within the attempt limit that nobody
   asked to cancel; otherwise it stores the handler's outcome and output and the
   finisher's time. It keeps the request.
   */
  lemma FinishEffect(cfg: Config, s: System, w: Write)
    requires cfg.Valid() && Inv(cfg, s) && TakesEffect(cfg, s, w) && w.origin.Finishing?
    ensures var before, after := s.records[w.id], After(cfg, s, w);
      && after.attempt == before.attempt == w.origin.attempt
      && after.cancelRequested == before.cancelRequested && after.cancelError == before.cancelError
      && after.progress == before.progress && after.startedAt == before.startedAt
      && (!after.state.Queued? ==>
            after.state == w.origin.outcome && after.output == w.origin.output && after.finishedAt == Some(w.origin.now))
      && (after.state.Queued? <==> w.origin.retryable && !before.cancelRequested && w.origin.attempt < cfg.maxAttempts)
      && (after.state.Queued? ==>
            after.output.None? && after.finishedAt == before.finishedAt
            && after.retryNotBefore == Some(RetryDeadline(cfg.retryPolicy, w.origin.attempt, w.origin.now)))
  {
    EffectIsResult(cfg, s, w);
    assert RecordOk(cfg, s, s.records[w.id]);
  }

  /**
   An accepted report is stored as reported and changes nothing else; it is accepted
   exactly from the running attempt with a larger version.
   */
  lemma ReportEffect(cfg: Config, s: System, cmd: ProgressCommand)
    requires cmd.id in s.records
    ensures var before, after := s.records[cmd.id], Step(cfg, s, Report(cmd)).records[cmd.id];
      var taken := && before.state.Running? && before.attempt == cmd.expectedAttempt
                   && (before.progress.Some? ==> before.progress.value.version < cmd.version);
      && SameRevision(before, after)
      && (taken ==> after.progress == Some(Progress(cmd.expectedAttempt, cmd.version, cmd.detail)))
      && (!taken ==> after == before)
  {
  }

  /** A submission with a fresh id is stored queued, never started, at the time of submission. */
  lemma AcceptEffect(cfg: Config, s: System, id: TaskId, now: nat)
    requires s.phase.Serving? && id !in s.issued
    ensures var t := Step(cfg, s, Accept(id, now));
      && id in t.records && id in t.issued
      && (var life := t.records[id];
          && life.state.Queued? && life.stateVersion == 0 && life.attempt == 0 && life.acceptedAt == now
          && !life.cancelRequested && life.cancelError.None? && life.retryNotBefore.None?
          && life.startedAt.None? && life.finishedAt.None? && life.progress.None? && life.output.None?)
  {
  }

  /** What the store accepts of what the actor carries. */
  predicate Storable(cfg: Config, w: Write) {
    && w.seen.stateVersion < U64_MAX
    && (w.origin.Starting? ==> w.seen.attempt < U32_MAX)
    && (w.origin.Blocking? ==> |w.origin.reason| <= MAX_DIAGNOSTIC_MESSAGE)
    && (w.origin.Finishing? ==>
          && w.origin.outcome.DiagnosticsFit()
          && (w.origin.output.Some? ==>
                w.origin.outcome.Succeeded? && |w.origin.output.value| <= MAX_OUTPUT_SUMMARY && !w.origin.retryable))
  }

  /** An actor that is not interfered with succeeds: what it decides on now takes effect now. */
  lemma UncontestedWrite(cfg: Config, s: System, id: TaskId, origin: Origin)
    requires cfg.Valid() && Inv(cfg, s) && id in s.records && Decides(s, id, origin, s.records[id])
    requires Storable(cfg, Write(id, origin, s.records[id]))
    ensures TakesEffect(cfg, Step(cfg, s, Decide(id, origin)), Write(id, origin, s.records[id]))
  {
    assert RecordOk(cfg, s, s.records[id]);
    if origin.Finishing? {
      assert HandlerOk(s, (id, origin.attempt));
    }
  }

  /** A serving service can persist a cancellation request on every running task that has none. */
  lemma CancelCanBePersisted(cfg: Config, s: System, id: TaskId)
    requires cfg.Valid() && Inv(cfg, s) && s.phase.Serving? && id in s.records
    requires s.records[id].state.Running? && !s.records[id].cancelRequested && s.records[id].stateVersion < U64_MAX
    ensures var w := Write(id, RequestingCancel, s.records[id]);
      var asked := Step(cfg, s, Decide(id, RequestingCancel));
      && TakesEffect(cfg, asked, w)
      && After(cfg, asked, w).cancelRequested && After(cfg, asked, w).attempt == s.records[id].attempt
  {
    var asked := Step(cfg, s, Decide(id, RequestingCancel));
    UncontestedWrite(cfg, s, id, RequestingCancel);
    StepKeepsInv(cfg, s, Decide(id, RequestingCancel));
    CancelEffect(cfg, asked, Write(id, RequestingCancel, s.records[id]));
  }

  /**
   So can the scheduler start every due queued task, an operator end or resume a waiting
   one, and a live handler finish.
   */
  lemma ActorsRespond(cfg: Config, s: System, id: TaskId, now: nat, outcome: TaskState, output: Option<string>)
    requires cfg.Valid() && Inv(cfg, s) && s.phase.Serving? && id in s.records
    requires s.records[id].stateVersion < U64_MAX && s.records[id].attempt < U32_MAX
    requires outcome.IsTerminal() && outcome.DiagnosticsFit()
    requires output.Some? ==> outcome.Succeeded? && |output.value| <= MAX_OUTPUT_SUMMARY
    ensures var life := s.records[id];
      var due := life.retryNotBefore.Some? ==> life.retryNotBefore.value <= now;
      var finish := Finishing(life.attempt, outcome, output, false, now);
      && (life.state.Queued? && due ==> CanDo(cfg, s, id, Starting(now)))
      && (life.state.Queued? || life.state.Blocked? ==> CanDo(cfg, s, id, CancellingBeforeStart(now)))
      && (life.state.Blocked? && !life.cancelRequested ==> CanDo(cfg, s, id, Resuming))
      && ((id, life.attempt) in s.handlers ==> CanDo(cfg, s, id, finish))
  {
    var life := s.records[id];
    if life.state.Queued? && (life.retryNotBefore.Some? ==> life.retryNotBefore.value <= now) {
      UncontestedWrite(cfg, s, id, Starting(now));
    }
    if life.state.Queued? || life.state.Blocked? {
      UncontestedWrite(cfg, s, id, CancellingBeforeStart(now));
    }
    if life.state.Blocked? && !life.cancelRequested {
      UncontestedWrite(cfg, s, id, Resuming);
    }
    if (id, life.attempt) in s.handlers {
      assert HandlerOk(s, (id, life.attempt));
      UncontestedWrite(cfg, s, id, Finishing(life.attempt, outcome, output, false, now));
    }
  }

  /** Deciding and executing back to back takes effect. */
  predicate CanDo(cfg: Config, s: System, id: TaskId, origin: Origin)
    requires id in s.records
  {
    TakesEffect(cfg, Step(cfg, s, Decide(id, origin)), Write(id, origin, s.records[id]))
  }

  /** A task that never started is queued, blocked or cancelled: it cannot have succeeded, failed or panicked. */
  lemma NeverStarted(cfg: Config, es: seq<Event>, id: TaskId)
    requires cfg.Valid() && id in Exec(cfg, es).records && AttemptsOf(Exec(cfg, es).starts, id) == []
    ensures var life := Exec(cfg, es).records[id];
      (life.state.Queued? || life.state.Blocked? || life.state.Cancelled?) && life.output.None?
  {
    InvHolds(cfg, es);
    assert LogOk(Exec(cfg, es), id) && RecordOk(cfg, Exec(cfg, es), Exec(cfg, es).records[id]);
  }

  /** A finish time exactly while terminal, and every text within its limit. */
  predicate Tidy(life: Lifecycle) {
    && (life.finishedAt.Some? <==> life.state.IsTerminal())
    && (life.state.Blocked? ==> |life.state.reason| <= 4096)
    && (life.state.Failed? ==> |life.state.category| <= 128 && |life.state.message| <= 4096)
    && (life.state.Panicked? ==> |life.state.message| <= 4096)
    && (life.output.Some? ==> |life.output.value| <= 65536)
  }

  lemma WrittenTidy(cfg: Config, w: Write, life: Lifecycle)
    requires DecisionOk(w) && SameRevision(w.seen, life) && Tidy(life) && WriteResult(cfg, w, life).Ok?
    ensures Tidy(WriteResult(cfg, w, life).value)
  {
  }

  lemma StepKeepsTidy(cfg: Config, s: System, e: Event, id: TaskId)
    requires cfg.Valid() && Inv(cfg, s) && (id in s.records ==> Tidy(s.records[id])) && id in Step(cfg, s, e).records
    ensures Tidy(Step(cfg, s, e).records[id])
  {
    if e.Execute? && e.write in s.writes && e.write.id == id && id in s.records && WriteResult(cfg, e.write, s.records[id]).Ok? {
      WriteSeesRecord(cfg, s, e.write);
      assert WriteOk(s, e.write);
      WrittenTidy(cfg, e.write, s.records[id]);
    } else if id in s.records {
      assert SameRevision(s.records[id], Step(cfg, s, e).records[id]);
    }
  }

  /** In every run a record carries a finish time exactly while it is terminal, and its texts stay within their limits. */
  lemma {:induction false} RecordsStayTidy(cfg: Config, es: seq<Event>, id: TaskId)
    requires cfg.Valid() && id in Exec(cfg, es).records
    ensures Tidy(Exec(cfg, es).records[id])
  {
    if es != [] {
      var init := es[..|es| - 1];
      InvHolds(cfg, init);
      if id in Exec(cfg, init).records {
        RecordsStayTidy(cfg, init, id);
      }
      StepKeepsTidy(cfg, Exec(cfg, init), es[|es| - 1], id);
    }
  }

  // ---- recovery ----

  /** Number of starts logged when the process last restarted. */
  function RestartMark(cfg: Config, es: seq<Event>): nat {
    if es == [] then 0
    else if es[|es| - 1].Restart? then |Exec(cfg, es).starts|
    else RestartMark(cfg, es[..|es| - 1])
  }

  /** A task that runs while the service serves ran so before the step, or is started by it. */
  lemma StepRuns(cfg: Config, s: System, e: Event, id: TaskId)
    requires cfg.Valid() && Inv(cfg, s) && id in Step(cfg, s, e).records
    requires Step(cfg, s, e).phase.Serving? && Step(cfg, s, e).records[id].state.Running?
    ensures var t := Step(cfg, s, e);
      || (&& s.phase.Serving? && id in s.records && s.records[id].state.Running?
          && s.records[id].attempt == t.records[id].attempt && s.starts <= t.starts)
      || t.starts == s.starts + [(id, t.records[id].attempt)]
  {
    if e.Execute? && e.write in s.writes && e.write.id in s.records && WriteResult(cfg, e.write, s.records[e.write.id]).Ok? {
      WriteSeesRecord(cfg, s, e.write);
      assert WriteOk(s, e.write);
    }
  }

  /** While the service serves, every running attempt was started by this process: recovery left none behind. */
  lemma {:induction false} RunningIsOwn(cfg: Config, es: seq<Event>, id: TaskId)
    requires cfg.Valid() && id in Exec(cfg, es).records
    requires Exec(cfg, es).phase.Serving? && Exec(cfg, es).records[id].state.Running?
    ensures var s := Exec(cfg, es);
      exists i :: RestartMark(cfg, es) <= i < |s.starts| && s.starts[i] == (id, s.records[id].attempt)
  {
    var init, e := es[..|es| - 1], es[|es| - 1];
    var s, t := Exec(cfg, init), Exec(cfg, es);
    InvHolds(cfg, init);
    StepRuns(cfg, s, e, id);
    if t.starts == s.starts + [(id, t.records[id].attempt)] {
      MarkBound(cfg, init);
      assert t.starts[|s.starts|] == (id, t.records[id].attempt);
    } else {
      RunningIsOwn(cfg, init, id);
      var i :| RestartMark(cfg, init) <= i < |s.starts| && s.starts[i] == (id, s.records[id].attempt);
      assert t.starts[i] == s.starts[i];
    }
  }

  lemma {:induction false} MarkBound(cfg: Config, es: seq<Event>)
    ensures RestartMark(cfg, es) <= |Exec(cfg, es).starts|
  {
    if es != [] {
      MarkBound(cfg, es[..|es| - 1]);
    }
  }

  // ---- cancellation ----

  /** `id` can only end, or wait for an operator, at attempt `attempt`. */
  predicate Doomed(s: System, id: TaskId, attempt: nat) {
    && id in s.issued
    && (id in s.records ==>
          var life := s.records[id];
          && life.attempt == attempt
          && (life.state.IsTerminal() || (life.cancelRequested && (life.state.Running? || life.state.Blocked?))))
  }

  lemma AttemptsSnoc(starts: seq<(TaskId, nat)>, start: (TaskId, nat), id: TaskId)
    ensures AttemptsOf(starts + [start], id)
         == if start.0 == id then AttemptsOf(starts, id) + [start.1] else AttemptsOf(starts, id)
  {
    assert (starts + [start])[..|starts|] == starts;
  }

  lemma WrittenDoomed(cfg: Config, w: Write, life: Lifecycle)
    requires DecisionOk(w) && SameRevision(w.seen, life) && WriteResult(cfg, w, life).Ok?
    requires life.state.IsTerminal() || (life.cancelRequested && (life.state.Running? || life.state.Blocked?))
    ensures !w.origin.Starting?
    ensures var next := WriteResult(cfg, w, life).value;
      && next.attempt == life.attempt
      && (next.state.IsTerminal() || (next.cancelRequested && (next.state.Running? || next.state.Blocked?)))
  {
  }

  lemma {:induction false} StepKeepsDoomed(cfg: Config, s: System, e: Event, id: TaskId, attempt: nat)
    requires cfg.Valid() && Inv(cfg, s) && Doomed(s, id, attempt)
    ensures Doomed(Step(cfg, s, e), id, attempt)
    ensures AttemptsOf(Step(cfg, s, e).starts, id) == AttemptsOf(s.starts, id)
  {
    if e.Execute? && e.write in s.writes && e.write.id in s.records && WriteResult(cfg, e.write, s.records[e.write.id]).Ok? {
      WriteSeesRecord(cfg, s, e.write);
      assert WriteOk(s, e.write);
      if e.write.id == id {
        WrittenDoomed(cfg, e.write, s.records[id]);
      } else if e.write.origin.Starting? {
        AttemptsSnoc(s.starts, (e.write.id, WriteResult(cfg, e.write, s.records[e.write.id]).value.attempt), id);
      }
    } else {
      assert Step(cfg, s, e).starts == s.starts;
    }
  }

  /**
   Once a cancellation request is persisted on a running task, no attempt of that
   task ever starts again, whatever the interleaving and however often the
   process restarts: the record stays at this attempt, keeping the request until
   the task ends.
   */
  lemma {:induction false} CancellationIsFinal(cfg: Config, es: seq<Event>, i: nat, id: TaskId)
    requires cfg.Valid() && i <= |es|
    requires id in Exec(cfg, es[..i]).records
    requires Exec(cfg, es[..i]).records[id].state.Running? && Exec(cfg, es[..i]).records[id].cancelRequested
    ensures Doomed(Exec(cfg, es), id, Exec(cfg, es[..i]).records[id].attempt)
    ensures AttemptsOf(Exec(cfg, es).starts, id) == AttemptsOf(Exec(cfg, es[..i]).starts, id)
    decreases |es|
  {
    if i == |es| {
      assert es[..i] == es;
      InvHolds(cfg, es);
    } else {
      var prefix := es[..|es| - 1];
      assert prefix[..i] == es[..i];
      CancellationIsFinal(cfg, prefix, i, id);
      InvHolds(cfg, prefix);
      StepKeepsDoomed(cfg, Exec(cfg, prefix), es[|es| - 1], id, Exec(cfg, es[..i]).records[id].attempt);
    }
  }

  lemma ExecStep(cfg: Config, es: seq<Event>, i: nat)
    requires i < |es|
    ensures Exec(cfg, es[..i + 1]) == Step(cfg, Exec(cfg, es[..i]), es[i])
  {
    assert es[..i + 1][..i] == es[..i];
  }

  /** From the moment a cancel call or a hook flight commits its request, no attempt of the task ever starts again. */
  lemma CancelledNeverRestarts(cfg: Config, es: seq<Event>, i: nat, w: Write)
    requires cfg.Valid() && i < |es| && es[i] == Execute(w) && TakesEffect(cfg, Exec(cfg, es[..i]), w)
    requires w.origin.RequestingCancel? || w.origin.Hooking?
    ensures AttemptsOf(Exec(cfg, es).starts, w.id) == AttemptsOf(Exec(cfg, es[..i]).starts, w.id)
    ensures Doomed(Exec(cfg, es), w.id, Exec(cfg, es[..i]).records[w.id].attempt)
  {
    InvHolds(cfg, es[..i]);
    ExecStep(cfg, es, i);
    CancelEffect(cfg, Exec(cfg, es[..i]), w);
    CancellationIsFinal(cfg, es, i + 1, w.id);
  }

  /** What a finishing handler stores is there for as long as the task is retained. */
  lemma OutcomeIsFinal(cfg: Config, es: seq<Event>, i: nat, w: Write)
    requires cfg.Valid() && i < |es| && es[i] == Execute(w) && TakesEffect(cfg, Exec(cfg, es[..i]), w)
    requires w.origin.Finishing? && !After(cfg, Exec(cfg, es[..i]), w).state.Queued?
    ensures w.id in Exec(cfg, es).records ==>
      var life := Exec(cfg, es).records[w.id];
      life.state == w.origin.outcome && life.output == w.origin.output && life.attempt == w.origin.attempt
  {
    InvHolds(cfg, es[..i]);
    InvHolds(cfg, es[..i + 1]);
    ExecStep(cfg, es, i);
    EffectIsResult(cfg, Exec(cfg, es[..i]), w);
    FinishEffect(cfg, Exec(cfg, es[..i]), w);
    HistoryShape(cfg, es, i + 1);
  }
}
