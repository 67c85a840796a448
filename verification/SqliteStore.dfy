/**
 The durable store: rows with columns kept beside the lifecycle document. `View`
 is the plain database the rows stand for. Each method is one transaction; it
 raises no error after changing anything. The key column of the row of task `id`
 holds the padded text of `id`; since that text is unique to the id, looking a
 row up by key text is looking it up by id.
 */
module SqliteStores {
  import opened TaskStates
  import opened TaskRecords
  import opened Keysets
  import opened MemoryAccounting
  import opened DurableDbs
  import Retention
  import opened MemoryStores

  /** `life` is the decoded `lifecycle_json`, `info` the decoded `request_info_json`; the rest are columns. */
  datatype Row = Row(
    stateKind: string,
    acceptedAt: nat,
    category: Option<string>,
    correlationKey: Option<string>,
    idempotencyKey: Option<string>,
    info: Request,
    payload: seq<bv8>,
    life: Lifecycle,
    stateVersion: nat,
    attempt: nat,
    retryNotBefore: Option<nat>,
    startedAt: Option<nat>,
    progressAttempt: Option<nat>,
    progressVersion: nat)

  type Rows = map<TaskId, Row>

  function InfoOf(request: Request): Request {
    request.(payload := [])
  }

  function TaskOf(row: Row): StoredTask {
    StoredTask(row.info.(payload := row.payload), row.life)
  }

  /** Every column says the same as the documents it was taken from. */
  predicate Agrees(row: Row) {
    && row.stateKind == row.life.state.Kind().AsStr()
    && row.acceptedAt == row.life.acceptedAt
    && row.category == row.info.category
    && row.correlationKey == row.info.correlationKey
    && row.idempotencyKey == row.info.idempotencyKey
    && row.info.payload == []
    && row.stateVersion == row.life.stateVersion
    && row.attempt == row.life.attempt
    && row.retryNotBefore == row.life.retryNotBefore
    && row.startedAt == row.life.startedAt
    && row.progressAttempt == (if row.life.progress.Some? then Some(row.life.progress.value.attempt) else None)
    && row.progressVersion == (if row.life.progress.Some? then row.life.progress.value.version else 0)
    && (row.life.progress.Some? ==> row.life.progress.value.attempt == row.life.attempt)
  }

  /** Values the signed integer columns can hold. */
  predicate InRange(row: Row) {
    && row.stateVersion <= I64_MAX
    && row.acceptedAt <= I64_MAX
    && (row.retryNotBefore.Some? ==> row.retryNotBefore.value <= I64_MAX)
    && (row.startedAt.Some? ==> row.startedAt.value <= I64_MAX)
    && row.progressVersion <= I64_MAX
  }

  predicate RowOk(row: Row) {
    Agrees(row) && InRange(row)
  }

  ghost predicate UniqueKeys(rows: Rows) {
    forall a, b :: a in rows && b in rows && SameKey(rows[a], rows[b]) ==> a == b
  }

  predicate SameKey(a: Row, b: Row) {
    a.idempotencyKey.Some? && a.idempotencyKey == b.idempotencyKey
  }

  ghost predicate RowsOk(rows: Rows) {
    && (forall id :: id in rows ==> RowOk(rows[id]))
    && UniqueKeys(rows)
  }

  function TasksOf(rows: Rows): Tasks {
    map id | id in rows :: TaskOf(rows[id])
  }

  lemma TasksOfUpdate(rows: Rows, id: TaskId, row: Row)
    ensures TasksOf(rows[id := row]) == TasksOf(rows)[id := TaskOf(row)]
  {
  }

  /** Writing a well-formed row whose idempotency key nobody else holds. */
  lemma RowsOkUpdate(rows: Rows, id: TaskId, row: Row)
    requires RowsOk(rows) && RowOk(row)
    requires forall other :: other in rows && other != id ==> !SameKey(row, rows[other])
    ensures RowsOk(rows[id := row])
  {
  }

  const TERMINAL_KINDS: set<string> := {"Succeeded", "Failed", "Panicked", "Cancelled"}

  lemma TerminalKindText(state: TaskState)
    ensures state.Kind().AsStr() in TERMINAL_KINDS <==> state.IsTerminal()
  {
    KindTextInjective(state.Kind(), SucceededKind);
    KindTextInjective(state.Kind(), FailedKind);
    KindTextInjective(state.Kind(), PanickedKind);
    KindTextInjective(state.Kind(), CancelledKind);
  }

  predicate Selected(row: Row, cutoff: nat) {
    row.stateKind in TERMINAL_KINDS && row.life.finishedAt.Some? && row.life.finishedAt.value < cutoff
  }

  /** What the prune query selects, by columns. */
  function SelectedKeys(rows: Rows, outbox: set<OutboxRow>, cutoff: nat): set<Key> {
    set id | id in rows && Selected(rows[id], cutoff) && !HasEvents(outbox, id) :: Key(rows[id].life.finishedAt.value, id)
  }

  lemma SelectedArePrunable(rows: Rows, db: Db, cutoff: nat)
    requires RowsOk(rows) && db.tasks == TasksOf(rows)
    ensures SelectedKeys(rows, db.outbox, cutoff) == PrunableKeys(db, cutoff)
  {
    forall id | id in rows ensures rows[id].stateKind in TERMINAL_KINDS <==> db.tasks[id].life.state.IsTerminal() {
      TerminalKindText(rows[id].life.state);
    }
    forall k ensures k in SelectedKeys(rows, db.outbox, cutoff) <==> k in PrunableKeys(db, cutoff) {
    }
  }

  lemma PruneAllStep(db: Db, keys: seq<Key>, i: nat)
    requires i < |keys|
    ensures PruneAll(db, keys[..i + 1]) == PruneOne(PruneAll(db, keys[..i]), keys[i].id)
  {
    assert keys[..i + 1][..i] == keys[..i];
  }

  /** The rows written by a start, a transition and a progress report. */
  function StartedRow(row: Row, cmd: StartCommand): Row {
    var life := Started(row.life, cmd);
    row.(stateKind := "Running", stateVersion := life.stateVersion, attempt := life.attempt,
         startedAt := Some(cmd.startedAt), retryNotBefore := None,
         progressAttempt := None, progressVersion := 0, life := life)
  }

  function TransitionedRow(row: Row, cmd: TransitionCommand): Row {
    var life := Transitioned(row.life, cmd);
    row.(stateKind := life.state.Kind().AsStr(), stateVersion := life.stateVersion,
         life := life, retryNotBefore := cmd.retryNotBefore)
  }

  function ProgressedRow(row: Row, cmd: ProgressCommand): Row {
    row.(life := Progressed(row.life, cmd), progressAttempt := Some(cmd.expectedAttempt), progressVersion := cmd.version)
  }

  function AcceptedRow(request: Request, now: nat): Row {
    Row("Queued", now, request.category, request.correlationKey, request.idempotencyKey,
        InfoOf(request), request.payload, Accepted(now), 0, 0, None, None, None, 0)
  }

  const MAX_EVENT_BYTES := 128 * 1024

  /** What the insertion of a notification meets: the clock, and the size of the encoded snapshot. */
  datatype Notice = Notice(now: nat, bytes: nat)

  /** Why an enabled outbox makes the transaction fail, if it does. */
  function NoticeError(enabled: bool, notice: Notice): Option<StoreError> {
    if !enabled then None
    else if notice.bytes > MAX_EVENT_BYTES then Some(InvalidRequest)
    else if notice.now > I64_MAX then Some(Failure)
    else None
  }

  /**
   The outbox lets a commit through exactly if it is off, or the snapshot is within 128 KiB
   and the clock fits its column.
   */
  lemma NoticeTakenIff(enabled: bool, notice: Notice)
    ensures NoticeError(enabled, notice).None? <==> enabled ==> notice.bytes <= 131072 && notice.now <= I64_MAX
    ensures NoticeError(enabled, notice) == Some(InvalidRequest) <==> enabled && notice.bytes > 131072
  {
  }

  predicate Archived(quarantine: set<Event>, id: TaskId, version: nat) {
    exists e :: e in quarantine && e.id == id && e.version == version
  }

  class SqliteStore {
    var rows: Rows
    var outbox: set<OutboxRow>
    var quarantine: set<Event>
    var checkpoints: map<TaskId, Checkpoint>
    var outboxEnabled: bool

    ghost function View(): Db
      reads this
    {
      Db(TasksOf(rows), outbox, quarantine, checkpoints)
    }

    ghost predicate Valid()
      reads this
    {
      RowsOk(rows) && OutboxOk(View())
    }

    constructor ()
      ensures Valid() && View() == EMPTY_DB && !outboxEnabled
    {
      rows, outbox, quarantine, checkpoints, outboxEnabled := map[], {}, {}, map[], false;
    }

    /** Writes one row and its notification, as every lifecycle transaction does before it commits. */
    method WriteRow(id: TaskId, row: Row, now: nat)
      requires Valid() && RowOk(row)
      requires forall other :: other in rows && other != id ==> !SameKey(row, rows[other])
      requires id in View().tasks ==> View().tasks[id].life.stateVersion < row.life.stateVersion
      modifies this
      ensures Valid()
      ensures View() == Commit(old(View()), outboxEnabled, id, TaskOf(row), now)
      ensures outboxEnabled == old(outboxEnabled)
    {
      TasksOfUpdate(rows, id, row);
      RowsOkUpdate(rows, id, row);
      CommitKeepsOutbox(View(), outboxEnabled, id, TaskOf(row), now);
      rows := rows[id := row];
      if outboxEnabled {
        outbox := InsertEvent(outbox, EventOf(id, row.life), now);
      }
    }

    method AcceptEncoded(id: TaskId, request: Request, now: nat, notice: Notice) returns (r: StoreResult<AcceptOutcome>)
      requires Valid()
      modifies this
      ensures Valid() && outboxEnabled == old(outboxEnabled)
      ensures r.Err? || !r.value.created ==> View() == old(View())
      ensures forall holder :: HoldsKey(old(View()).tasks, holder, request) ==>
                r == if old(View()).tasks[holder].request == request
                     then Ok(AcceptOutcome(holder, old(View()).tasks[holder].life, false))
                     else Err(IdempotencyConflict)
      ensures (forall holder :: !HoldsKey(old(View()).tasks, holder, request)) ==>
                r == if id in old(View()).tasks then Err(DuplicateTask)
                     else if now > I64_MAX then Err(Failure)
                     else if NoticeError(outboxEnabled, notice).Some? then Err(NoticeError(outboxEnabled, notice).value)
                     else Ok(AcceptOutcome(id, Accepted(now), true))
      ensures r.Ok? && r.value.created ==>
                View() == Commit(old(View()), outboxEnabled, id, StoredTask(request, Accepted(now)), notice.now)
    {
      if request.idempotencyKey.Some? {
        if holder :| holder in rows && rows[holder].idempotencyKey == request.idempotencyKey {
          var row := rows[holder];
          HolderIsUnique(holder, request);
          if row.info != InfoOf(request) || row.payload != request.payload {
            return Err(IdempotencyConflict);
          }
          return Ok(AcceptOutcome(holder, row.life, false));
        }
      }
      assert forall holder :: !HoldsKey(View().tasks, holder, request);
      if id in rows {
        return Err(DuplicateTask);
      }
      if now > I64_MAX {
        return Err(Failure);
      }
      var failure := NoticeError(outboxEnabled, notice);
      if failure.Some? {
        return Err(failure.value);
      }
      var row := AcceptedRow(request, now);
      assert TaskOf(row) == StoredTask(request, Accepted(now));
      WriteRow(id, row, notice.now);
      r := Ok(AcceptOutcome(id, Accepted(now), true));
    }

    /** The row found by a key is the only holder of that key, and decides the outcome of a replay. */
    lemma HolderIsUnique(holder: TaskId, request: Request)
      requires Valid() && holder in rows && request.idempotencyKey.Some?
      requires rows[holder].idempotencyKey == request.idempotencyKey
      ensures HoldsKey(View().tasks, holder, request)
      ensures forall other :: HoldsKey(View().tasks, other, request) ==> other == holder
      ensures View().tasks[holder].request == request
              <==> rows[holder].info == InfoOf(request) && rows[holder].payload == request.payload
    {
      forall other | HoldsKey(View().tasks, other, request) ensures other == holder {
        assert SameKey(rows[holder], rows[other]);
      }
    }

    method StartEncoded(cmd: StartCommand, notice: Notice) returns (r: StoreResult<Lifecycle>)
      requires Valid()
      modifies this
      ensures Valid() && outboxEnabled == old(outboxEnabled)
      ensures r.Err? ==> View() == old(View())
      ensures r.Ok? <==> cmd.id in old(View()).tasks && StartResult(old(View()).tasks[cmd.id].life, cmd).Ok?
                         && old(View()).tasks[cmd.id].life.stateVersion < I64_MAX && cmd.startedAt <= I64_MAX
                         && NoticeError(outboxEnabled, notice).None?
      ensures r.Ok? ==>
                var task := old(View()).tasks[cmd.id];
                && r == StartResult(task.life, cmd)
                && View() == Commit(old(View()), outboxEnabled, cmd.id, task.(life := r.value), notice.now)
      ensures cmd.id !in old(View()).tasks ==> r == Err(NotFound)
      ensures cmd.id in old(View()).tasks && !CanStart(old(View()).tasks[cmd.id].life, cmd) ==> r == Err(Conflict)
    {
      if cmd.id !in rows {
        return Err(NotFound);
      }
      var row := rows[cmd.id];
      KindTextInjective(row.life.state.Kind(), QueuedKind);
      if row.stateKind != QueuedKind.AsStr() || row.stateVersion != cmd.expectedVersion {
        return Err(Conflict);
      }
      if row.life.attempt >= U32_MAX || row.life.stateVersion + 1 > I64_MAX || cmd.startedAt > I64_MAX {
        return Err(Failure);
      }
      var failure := NoticeError(outboxEnabled, notice);
      if failure.Some? {
        return Err(failure.value);
      }
      var next := StartedRow(row, cmd);
      WriteRow(cmd.id, next, notice.now);
      r := Ok(next.life);
    }

    method TransitionEncoded(cmd: TransitionCommand, notice: Notice) returns (r: StoreResult<Lifecycle>)
      requires Valid()
      modifies this
      ensures Valid() && outboxEnabled == old(outboxEnabled)
      ensures r.Err? ==> View() == old(View())
      ensures r.Ok? <==> cmd.id in old(View()).tasks && TransitionResult(old(View()).tasks[cmd.id].life, cmd).Ok?
                         && old(View()).tasks[cmd.id].life.stateVersion < I64_MAX
                         && (cmd.retryNotBefore.Some? ==> cmd.retryNotBefore.value <= I64_MAX)
                         && NoticeError(outboxEnabled, notice).None?
      ensures r.Ok? ==>
                var task := old(View()).tasks[cmd.id];
                && r == TransitionResult(task.life, cmd)
                && View() == Commit(old(View()), outboxEnabled, cmd.id, task.(life := r.value), notice.now)
    {
      if !CommandFits(cmd) || (cmd.retryNotBefore.Some? && !cmd.state.Queued?) {
        return Err(InvalidRequest);
      }
      if cmd.id !in rows {
        return Err(NotFound);
      }
      var row := rows[cmd.id];
      if cmd.retryNotBefore.Some? && cmd.retryNotBefore.value > I64_MAX {
        return Err(Failure);
      }
      if row.stateVersion != cmd.expectedVersion || row.life.attempt != cmd.expectedAttempt
         || (!row.life.state.AllowsTransitionTo(cmd.state) && !IsAnnotation(row.life, cmd)) {
        return Err(Conflict);
      }
      if cmd.output.Some? && row.life.state.IsTerminal() {
        return Err(InvalidRequest);
      }
      if row.life.stateVersion + 1 > I64_MAX {
        return Err(Failure);
      }
      var failure := NoticeError(outboxEnabled, notice);
      if failure.Some? {
        return Err(failure.value);
      }
      var next := TransitionedRow(row, cmd);
      WriteRow(cmd.id, next, notice.now);
      r := Ok(next.life);
    }

    /** Progress is written without raising the version or leaving a notification. Version 0 is never accepted. */
    method UpdateProgress(cmd: ProgressCommand) returns (r: StoreResult<Lifecycle>)
      requires Valid()
      modifies this
      ensures Valid() && outboxEnabled == old(outboxEnabled)
      ensures r.Err? ==> View() == old(View())
      ensures r.Ok? <==> cmd.id in old(View()).tasks && CanProgress(old(View()).tasks[cmd.id].life, cmd)
                         && 1 <= cmd.version <= I64_MAX
      ensures r.Ok? ==>
                var task := old(View()).tasks[cmd.id];
                && r.value == Progressed(task.life, cmd)
                && View() == old(View()).(tasks := old(View()).tasks[cmd.id := task.(life := r.value)])
    {
      if cmd.id !in rows {
        return Err(NotFound);
      }
      var row := rows[cmd.id];
      KindTextInjective(row.life.state.Kind(), RunningKind);
      if row.stateKind != RunningKind.AsStr() || row.attempt != cmd.expectedAttempt {
        return Err(Conflict);
      }
      var previous := if row.progressAttempt == Some(cmd.expectedAttempt) then row.progressVersion else 0;
      if cmd.version <= previous {
        return Err(Conflict);
      }
      if cmd.version > I64_MAX {
        return Err(Failure);
      }
      var next := ProgressedRow(row, cmd);
      TasksOfUpdate(rows, cmd.id, next);
      RowsOkUpdate(rows, cmd.id, next);
      rows := rows[cmd.id := next];
      r := Ok(next.life);
    }

    /** Saves one checkpoint and deletes the row; a task with pending notifications is never passed in. */
    method PruneRow(id: TaskId)
      requires Valid() && !HasEvents(outbox, id)
      modifies this
      ensures Valid() && outboxEnabled == old(outboxEnabled) && outbox == old(outbox)
      ensures View() == PruneOne(old(View()), id)
    {
      if id in rows {
        checkpoints := checkpoints[id := CheckpointOf(rows[id].life)];
        rows := rows - {id};
        assert TasksOf(rows) == TasksOf(old(rows)) - {id};
      }
    }

    /** Prunes a bounded batch, keeping every task that still owes a notification. */
    method PruneTerminalBefore(cutoff: nat, maxRows: nat) returns (r: StoreResult<nat>)
      requires Valid() && maxRows > 0
      modifies this
      ensures Valid() && outboxEnabled == old(outboxEnabled)
      ensures cutoff > I64_MAX || maxRows > I64_MAX ==> r == Err(InvalidRequest) && View() == old(View())
      ensures cutoff <= I64_MAX && maxRows <= I64_MAX ==>
                && View() == PruneDb(old(View()), cutoff, maxRows)
                && r == Ok(|TakeKeys(SortKeys(PrunableKeys(old(View()), cutoff)), maxRows)|)
      ensures r.Ok? ==>
                && Retention.PrunesOldest(old(View()).tasks, View().tasks, Owing(old(View()).outbox), cutoff, maxRows, r.value)
                && Checkpointed(old(View()), View())
    {
      if cutoff > I64_MAX || maxRows > I64_MAX {
        return Err(InvalidRequest);
      }
      SelectedArePrunable(rows, View(), cutoff);
      var keys := TakeKeys(SortKeys(SelectedKeys(rows, outbox, cutoff)), maxRows);
      assert forall k :: k in keys ==> k in SelectedKeys(rows, outbox, cutoff);
      PruneRows(keys);
      PruneMeaning(old(View()), cutoff, maxRows);
      r := Ok(|keys|);
    }

    method PruneRows(keys: seq<Key>)
      requires Valid() && forall k :: k in keys ==> !HasEvents(outbox, k.id)
      modifies this
      ensures Valid() && outboxEnabled == old(outboxEnabled)
      ensures View() == PruneAll(old(View()), keys)
    {
      var i := 0;
      while i < |keys|
        invariant 0 <= i <= |keys|
        invariant Valid() && outboxEnabled == old(outboxEnabled) && outbox == old(outbox)
        invariant View() == PruneAll(old(View()), keys[..i])
      {
        PruneAllStep(old(View()), keys, i);
        PruneRow(keys[i].id);
        i := i + 1;
      }
      assert keys[..i] == keys;
    }

    method GetStateCheckpoint(id: TaskId) returns (r: Option<Checkpoint>)
      requires Valid()
      ensures r == Lookup(View(), id)
    {
      if id in rows {
        return Some(CheckpointOf(rows[id].life));
      }
      r := if id in checkpoints then Some(checkpoints[id]) else None;
    }

    method MarkEventPublished(id: TaskId, version: nat)
      requires Valid()
      modifies this`outbox
      ensures Valid() && View() == MarkPublished(old(View()), id, version)
    {
      outbox := set r | r in outbox && !(r.event.id == id && r.event.version == version);
    }

    /** Archives the oldest pending row if it is still the expected one. */
    method QuarantineHead(id: TaskId, version: nat) returns (r: StoreResult<()>)
      requires Valid()
      modifies this
      ensures Valid() && outboxEnabled == old(outboxEnabled)
      ensures r.Ok? <==>
                && (exists head :: IsHead(old(outbox), head) && head.event.id == id && head.event.version == version)
                && !Archived(old(quarantine), id, version)
      ensures r.Ok? ==> forall head :: IsHead(old(outbox), head) ==> View() == Quarantine(old(View()), head)
      ensures r.Err? ==> View() == old(View())
    {
      if outbox == {} {
        return Err(Conflict);
      }
      var head := Head(outbox);
      assert forall h :: IsHead(outbox, h) ==> h == head;
      if head.event.id != id || head.event.version != version {
        return Err(Conflict);
      }
      if Archived(quarantine, id, version) {
        return Err(Failure);
      }
      quarantine := quarantine + {head.event};
      outbox := outbox - {head};
      r := Ok(());
    }
  }
}
