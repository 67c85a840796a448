/**
 Durable notifications. Lifecycle commits leave a row in the outbox; one worker
 hands rows to the event bus in store order and deletes a row only after the bus
 accepted it; an operator may move a failing head row to the archive instead. The
 process, or just the worker, may die anywhere, and the clock may go back.

 One action is one atomic step; an action whose guard does not hold changes
 nothing. The id generator is taken to never reissue an id.
 */
module Outbox {
  import opened TaskStates
  import opened TaskRecords
  import opened Keysets
  import opened DurableDbs

  const PAGE_LIMIT := 128

  datatype Worker =
    | Down
    | Top                                                // about to read the outbox
    | Scanning(rest: seq<OutboxRow>)                     // rows of the page not handled yet
    | Sending(row: OutboxRow, rest: seq<OutboxRow>)      // handed to the bus, no answer yet
    | Marking(row: OutboxRow, rest: seq<OutboxRow>)      // accepted by the bus, row not deleted yet
    | Waiting                                            // backing off after a failure

  datatype LogEntry =
    | Recorded(event: Event)
    | Handed(event: Event)
    | Acknowledged(event: Event)
    | Missed(event: Event)
    | Deleted(event: Event)
    | Quarantined(event: Event)

  /**
   `last` remembers each task's latest committed lifecycle and `history` the state that
   every commit gave a task, independently of where the store keeps them.
   */
  datatype System = System(
    db: Db,
    enabled: bool,
    worker: Worker,
    failure: Option<Event>,
    log: seq<LogEntry>,
    last: map<TaskId, Lifecycle>,
    history: map<(TaskId, nat), TaskState>)

  datatype WriteOp =
    | Accept(id: TaskId, request: Request)
    | Start(start: StartCommand)
    | Transition(transition: TransitionCommand)

  datatype WorkerOp =
    | StartWorker
    | Read(page: seq<OutboxRow>)
    | Control(id: TaskId, version: nat)
    | Send
    | Corrupt
    | EndOfPage
    | BusAccepts
    | BusFails
    | Mark
    | MarkFails
    | Wake
    | StopWorker

  datatype Action =
    | Write(write: WriteOp, now: nat)
    | Report(report: ProgressCommand)
    | Prune(cutoff: nat, maxRows: nat)
    | EnableOutbox
    | Publish(op: WorkerOp)
    | Restart

  const INITIAL := System(EMPTY_DB, false, Down, None, [], map[], map[])

  /** `page` is the first rows of the outbox in store order. */
  ghost predicate IsPage(outbox: set<OutboxRow>, page: seq<OutboxRow>) {
    && |page| <= PAGE_LIMIT
    && (forall r :: r in page ==> r in outbox)
    && (forall i, j :: 0 <= i < j < |page| ==> RowBefore(page[i], page[j]))
    && (forall r, s :: r in page && s in outbox && s !in page ==> RowBefore(r, s))
  }

  function Committed(s: System, id: TaskId, task: StoredTask, now: nat): System {
    s.(db := Commit(s.db, s.enabled, id, task, now),
       log := if s.enabled then s.log + [Recorded(EventOf(id, task.life))] else s.log,
       last := s.last[id := task.life],
       history := s.history[(id, task.life.stateVersion) := task.life.state])
  }

  /** The remembered failure survives only while its row heads the page. */
  function ClearIfHeadChanged(failure: Option<Event>, worker: Worker): Option<Event> {
    if worker.Scanning? && worker.rest != [] && failure != Some(worker.rest[0].event) then None else failure
  }

  ghost predicate QuarantineAllowed(s: System, row: OutboxRow, id: TaskId, version: nat) {
    && (s.worker.Top? || s.worker.Scanning? || s.worker.Waiting?)
    && ClearIfHeadChanged(s.failure, s.worker) == Some(row.event)
    && row.event.id == id && row.event.version == version
    && IsHead(s.db.outbox, row)
  }

  /** The record a lifecycle write commits, if it succeeds. */
  function Written(s: System, w: WriteOp, now: nat): Option<(TaskId, StoredTask)> {
    match w
    case Accept(id, request) => if id !in s.last then Some((id, StoredTask(request, Accepted(now)))) else None
    case Start(cmd) =>
      if cmd.id in s.db.tasks && StartResult(s.db.tasks[cmd.id].life, cmd).Ok?
      then Some((cmd.id, s.db.tasks[cmd.id].(life := StartResult(s.db.tasks[cmd.id].life, cmd).value))) else None
    case Transition(cmd) =>
      if cmd.id in s.db.tasks && TransitionResult(s.db.tasks[cmd.id].life, cmd).Ok?
      then Some((cmd.id, s.db.tasks[cmd.id].(life := TransitionResult(s.db.tasks[cmd.id].life, cmd).value))) else None
  }

  /** One step of the ordered worker. */
  ghost function WorkerStep(s: System, op: WorkerOp): System {
    match op
    case StartWorker => if s.worker.Down? then s.(worker := Top, failure := None) else s
    case Read(page) =>
      if s.worker.Top? && IsPage(s.db.outbox, page) && page != [] then s.(worker := Scanning(page)) else s
    case Control(id, version) =>
      if row :| QuarantineAllowed(s, row, id, version)
      then s.(db := Quarantine(s.db, row), worker := Top, failure := None, log := s.log + [Quarantined(row.event)])
      else s
    case Send =>
      if s.worker.Scanning? && s.worker.rest != [] then
        var row := s.worker.rest[0];
        s.(worker := Sending(row, s.worker.rest[1..]), failure := ClearIfHeadChanged(s.failure, s.worker),
           log := s.log + [Handed(row.event)])
      else s
    case Corrupt =>
      if s.worker.Scanning? && s.worker.rest != []
      then s.(worker := Waiting, failure := Some(s.worker.rest[0].event), log := s.log + [Missed(s.worker.rest[0].event)])
      else s
    case EndOfPage => if s.worker == Scanning([]) then s.(worker := Top) else s
    case BusAccepts =>
      if s.worker.Sending?
      then s.(worker := Marking(s.worker.row, s.worker.rest), log := s.log + [Acknowledged(s.worker.row.event)]) else s
    case BusFails =>
      if s.worker.Sending?
      then s.(worker := Waiting, failure := Some(s.worker.row.event), log := s.log + [Missed(s.worker.row.event)]) else s
    case Mark =>
      if s.worker.Marking? then
        var e := s.worker.row.event;
        s.(db := MarkPublished(s.db, e.id, e.version), worker := Scanning(s.worker.rest),
           failure := if s.failure == Some(e) then None else s.failure, log := s.log + [Deleted(e)])
      else s
    case MarkFails =>
      if s.worker.Marking?
      then s.(worker := Waiting, failure := Some(s.worker.row.event), log := s.log + [Missed(s.worker.row.event)]) else s
    case Wake => if s.worker.Waiting? then s.(worker := Top) else s
    case StopWorker => s.(worker := Down)
  }

  ghost function Step(s: System, a: Action): System {
    match a
    case Write(w, now) =>
      var written := Written(s, w, now);
      if written.Some? then Committed(s, written.value.0, written.value.1, now) else s
    case Report(cmd) =>
      if cmd.id in s.db.tasks && CanProgress(s.db.tasks[cmd.id].life, cmd)
      then s.(db := s.db.(tasks := s.db.tasks[cmd.id := s.db.tasks[cmd.id].(life := Progressed(s.db.tasks[cmd.id].life, cmd))]))
      else s
    case Prune(cutoff, maxRows) => s.(db := PruneDb(s.db, cutoff, maxRows))
    case EnableOutbox => s.(enabled := true)
    case Publish(op) => WorkerStep(s, op)
    case Restart => s.(worker := Down, failure := None, enabled := false)
  }

  ghost function Exec(actions: seq<Action>): System {
    if actions == [] then INITIAL else Step(Exec(actions[..|actions| - 1]), actions[|actions| - 1])
  }

  // ---- the database ----

  /** What a lookup should answer about a task whose latest commit is `life`. */
  function Said(life: Lifecycle): Checkpoint {
    Checkpoint(life.stateVersion, life.state)
  }

  ghost predicate DbInv(s: System) {
    && OutboxOk(s.db)
    && s.db.tasks.Keys + s.db.checkpoints.Keys == s.last.Keys
    && s.db.tasks.Keys !! s.db.checkpoints.Keys
    && (forall id :: id in s.last ==> Lookup(s.db, id) == Some(Said(s.last[id])))
    && RowsInVersionOrder(s.db.outbox)
  }

  /** Of two pending rows of one task, the later version was not created earlier. */
  ghost predicate RowsInVersionOrder(outbox: set<OutboxRow>) {
    forall r, t :: r in outbox && t in outbox && r.event.id == t.event.id && r.event.version < t.event.version ==>
      r.createdAt <= t.createdAt
  }

  /** A write accepts a new id or raises the version of a retained task. */
  ghost predicate Raises(s: System, id: TaskId, task: StoredTask) {
    id !in s.last || (id in s.db.tasks && s.db.tasks[id].life.stateVersion < task.life.stateVersion)
  }

  lemma WrittenRaises(s: System, w: WriteOp, now: nat)
    requires Written(s, w, now).Some?
    ensures Raises(s, Written(s, w, now).value.0, Written(s, w, now).value.1)
  {
  }

  lemma CommittedKeepsDb(s: System, id: TaskId, task: StoredTask, now: nat)
    requires DbInv(s) && Raises(s, id, task)
    ensures DbInv(Committed(s, id, task, now))
  {
    CommitKeepsOutbox(s.db, s.enabled, id, task, now);
    CommitKeepsLookups(s, id, task, now);
    if s.enabled {
      InsertKeepsOrder(s.db.outbox, EventOf(id, task.life), now);
    }
  }

  lemma CommitKeepsLookups(s: System, id: TaskId, task: StoredTask, now: nat)
    requires DbInv(s) && Raises(s, id, task)
    ensures var t := Committed(s, id, task, now);
      && t.db.tasks.Keys + t.db.checkpoints.Keys == t.last.Keys
      && t.db.tasks.Keys !! t.db.checkpoints.Keys
      && forall x :: x in t.last ==> Lookup(t.db, x) == Some(Said(t.last[x]))
  {
  }

  lemma InsertKeepsOrder(outbox: set<OutboxRow>, event: Event, now: nat)
    requires RowsInVersionOrder(outbox)
    requires forall r :: r in outbox && r.event.id == event.id ==> r.event.version < event.version
    ensures RowsInVersionOrder(InsertEvent(outbox, event, now))
  {
  }

  lemma PruneOneKeepsDb(s: System, id: TaskId)
    requires DbInv(s) && !HasEvents(s.db.outbox, id)
    ensures DbInv(s.(db := PruneOne(s.db, id)))
  {
    if id in s.db.tasks {
      var next := PruneOne(s.db, id);
      assert next.tasks.Keys == s.db.tasks.Keys - {id} && next.checkpoints.Keys == s.db.checkpoints.Keys + {id};
    }
  }

  lemma {:induction false} PruneKeepsDb(s: System, keys: seq<Key>)
    requires DbInv(s) && forall k :: k in keys ==> !HasEvents(s.db.outbox, k.id)
    ensures DbInv(s.(db := PruneAll(s.db, keys)))
    ensures PruneAll(s.db, keys).outbox == s.db.outbox && PruneAll(s.db, keys).quarantine == s.db.quarantine
  {
    if keys != [] {
      PruneKeepsDb(s, keys[..|keys| - 1]);
      assert keys[|keys| - 1] in keys;
      PruneOneKeepsDb(s.(db := PruneAll(s.db, keys[..|keys| - 1])), keys[|keys| - 1].id);
    }
  }

  lemma PruneDbKeepsDb(s: System, cutoff: nat, maxRows: nat)
    requires DbInv(s)
    ensures DbInv(s.(db := PruneDb(s.db, cutoff, maxRows)))
    ensures PruneDb(s.db, cutoff, maxRows).outbox == s.db.outbox
    ensures PruneDb(s.db, cutoff, maxRows).quarantine == s.db.quarantine
  {
    PruneKeepsDb(s, TakeKeys(SortKeys(PrunableKeys(s.db, cutoff)), maxRows));
  }

  /** A worker step only ever removes rows. */
  lemma WorkerStepFrame(s: System, op: WorkerOp)
    ensures var t := WorkerStep(s, op);
      && t.db.tasks == s.db.tasks && t.db.checkpoints == s.db.checkpoints && t.last == s.last
      && t.db.outbox <= s.db.outbox
  {
    match op
    case Control(id, version) => assert forall row :: Quarantine(s.db, row).outbox <= s.db.outbox;
    case Mark =>
    case _ => assert WorkerStep(s, op).db == s.db;
  }

  lemma FewerRowsKeepDb(s: System, t: System)
    requires DbInv(s)
    requires t.db.tasks == s.db.tasks && t.db.checkpoints == s.db.checkpoints && t.last == s.last
    requires t.db.outbox <= s.db.outbox
    ensures DbInv(t)
  {
  }

  lemma ReportKeepsDb(s: System, cmd: ProgressCommand)
    requires DbInv(s)
    ensures DbInv(Step(s, Report(cmd)))
  {
  }

  lemma StepKeepsDb(s: System, a: Action)
    requires DbInv(s)
    ensures DbInv(Step(s, a))
  {
    match a
    case Write(w, now) =>
      var written := Written(s, w, now);
      if written.Some? {
        WrittenRaises(s, w, now);
        CommittedKeepsDb(s, written.value.0, written.value.1, now);
      }
    case Report(cmd) => ReportKeepsDb(s, cmd);
    case Prune(cutoff, maxRows) => PruneDbKeepsDb(s, cutoff, maxRows);
    case Publish(op) =>
      WorkerStepFrame(s, op);
      FewerRowsKeepDb(s, WorkerStep(s, op));
    case _ => FewerRowsKeepDb(s, Step(s, a));
  }

  // ---- the worker ----

  /** Rows the worker still intends to hand over or delete, in order. */
  function Window(worker: Worker): seq<OutboxRow> {
    match worker
    case Scanning(rest) => rest
    case Sending(row, rest) => [row] + rest
    case Marking(row, rest) => [row] + rest
    case _ => []
  }

  /** The rows are pending, and no older pending version of a listed task is missing in front of it. */
  ghost predicate WindowOk(outbox: set<OutboxRow>, w: seq<OutboxRow>) {
    && (forall i :: 0 <= i < |w| ==> w[i] in outbox)
    && (forall i, j :: 0 <= i < j < |w| ==> w[i] != w[j])
    && (forall i, r :: 0 <= i < |w| && r in outbox && r.event.id == w[i].event.id && r.event.version < w[i].event.version ==>
          r in w[..i])
  }

  lemma PageIsWindow(outbox: set<OutboxRow>, page: seq<OutboxRow>)
    requires IsPage(outbox, page) && RowsInVersionOrder(outbox)
    ensures WindowOk(outbox, page)
  {
    forall i | 0 <= i < |page| ensures page[i] in outbox {
      assert page[i] in page;
    }
    forall i, r | 0 <= i < |page| && r in outbox && r.event.id == page[i].event.id && r.event.version < page[i].event.version
      ensures r in page[..i]
    {
      assert page[i] in page && RowBefore(r, page[i]);
      var j :| 0 <= j < |page| && page[j] == r;
      assert j < i;
      assert page[..i][j] == r;
    }
  }

  lemma WindowTail(outbox: set<OutboxRow>, w: seq<OutboxRow>)
    requires WindowOk(outbox, w) && w != []
    ensures WindowOk(outbox - {w[0]}, w[1..])
    ensures forall r :: r in outbox && r.event.id == w[0].event.id ==> r.event.version >= w[0].event.version
  {
    var rest := w[1..];
    forall i, r | 0 <= i < |rest| && r in outbox - {w[0]} && r.event.id == rest[i].event.id && r.event.version < rest[i].event.version
      ensures r in rest[..i]
    {
      assert r in w[..i + 1];
      var j :| 0 <= j < i + 1 && w[j] == r;
      assert rest[..i][j - 1] == r;
    }
  }

  /** New rows carry versions above all existing ones of their task. */
  lemma WindowInsert(outbox: set<OutboxRow>, row: OutboxRow, w: seq<OutboxRow>)
    requires WindowOk(outbox, w)
    requires forall r :: r in outbox && r.event.id == row.event.id ==> r.event.version < row.event.version
    ensures WindowOk(outbox + {row}, w)
  {
  }

  /** The row in flight was accepted by the bus before it is deleted, and handed over before that. */
  ghost predicate WorkerInv(s: System) {
    && WindowOk(s.db.outbox, Window(s.worker))
    && (s.worker.Sending? ==> Handed(s.worker.row.event) in s.log)
    && (s.worker.Marking? ==> Acknowledged(s.worker.row.event) in s.log)
  }

  lemma CommittedKeepsWorker(s: System, id: TaskId, task: StoredTask, now: nat)
    requires DbInv(s) && WorkerInv(s) && Raises(s, id, task)
    ensures WorkerInv(Committed(s, id, task, now))
  {
    if s.enabled {
      WindowInsert(s.db.outbox, OutboxRow(EventOf(id, task.life), CreationTime(s.db.outbox, now)), Window(s.worker));
    }
  }

  lemma MarkRemovesRow(db: Db, row: OutboxRow)
    requires OneRowPerVersion(db.outbox) && row in db.outbox
    ensures MarkPublished(db, row.event.id, row.event.version).outbox == db.outbox - {row}
  {
  }

  lemma MarkKeepsWorker(s: System)
    requires DbInv(s) && WorkerInv(s) && s.worker.Marking?
    ensures WorkerInv(WorkerStep(s, Mark))
  {
    var w := Window(s.worker);
    WindowTail(s.db.outbox, w);
    assert w[1..] == s.worker.rest && w[0] in s.db.outbox;
    MarkRemovesRow(s.db, s.worker.row);
  }

  lemma SendKeepsWorker(s: System)
    requires WorkerInv(s) && s.worker.Scanning? && s.worker.rest != []
    ensures WorkerInv(WorkerStep(s, Send))
  {
    assert Window(WorkerStep(s, Send).worker) == s.worker.rest;
  }

  /** The other steps keep the window or drop it. */
  lemma QuietKeepsWorker(s: System, op: WorkerOp)
    requires WorkerInv(s) && !op.Read? && !op.Send? && !op.Mark?
    ensures WorkerInv(WorkerStep(s, op))
  {
    var t := WorkerStep(s, op);
    assert Window(t.worker) == [] || (t.db == s.db && Window(t.worker) == Window(s.worker));
    assert forall l :: l in s.log ==> l in t.log;
  }

  lemma WorkerStepKeepsWorker(s: System, op: WorkerOp)
    requires DbInv(s) && WorkerInv(s)
    ensures WorkerInv(WorkerStep(s, op))
  {
    match op
    case Read(page) =>
      if s.worker.Top? && IsPage(s.db.outbox, page) {
        PageIsWindow(s.db.outbox, page);
      }
    case Send =>
      if s.worker.Scanning? && s.worker.rest != [] {
        SendKeepsWorker(s);
      }
    case Mark =>
      if s.worker.Marking? {
        MarkKeepsWorker(s);
      }
    case _ => QuietKeepsWorker(s, op);
  }

  lemma StepKeepsWorker(s: System, a: Action)
    requires DbInv(s) && WorkerInv(s)
    ensures WorkerInv(Step(s, a))
  {
    match a
    case Write(w, now) =>
      var written := Written(s, w, now);
      if written.Some? {
        WrittenRaises(s, w, now);
        CommittedKeepsWorker(s, written.value.0, written.value.1, now);
      }
    case Prune(cutoff, maxRows) => PruneDbKeepsDb(s, cutoff, maxRows);
    case Publish(op) => WorkerStepKeepsWorker(s, op);
    case _ =>
  }

  // ---- the log ----

  ghost predicate Pending(s: System, e: Event) {
    exists r :: r in s.db.outbox && r.event == e
  }

  /** Where a recorded notification is. */
  ghost predicate Accounted(s: System, e: Event) {
    && (Pending(s, e) || Quarantined(e) in s.log || Deleted(e) in s.log)
    && !(Pending(s, e) && Quarantined(e) in s.log)
    && !(Pending(s, e) && Deleted(e) in s.log)
    && !(Quarantined(e) in s.log && Deleted(e) in s.log)
  }

  ghost predicate Conserved(s: System) {
    && (forall e :: Recorded(e) in s.log ==> Accounted(s, e))
    && (forall e :: Pending(s, e) ==> Recorded(e) in s.log)
    && (forall e :: Quarantined(e) in s.log <==> e in s.db.quarantine)
    && (forall e :: Quarantined(e) in s.log ==> Recorded(e) in s.log)
    && (forall e :: Deleted(e) in s.log ==> Recorded(e) in s.log && Acknowledged(e) in s.log)
    && (forall e :: Handed(e) in s.log ==> Recorded(e) in s.log)
  }

  /** Every logged version is at most the task's latest one. */
  ghost predicate Bounded(s: System) {
    forall e :: Recorded(e) in s.log ==> e.id in s.last && e.version <= s.last[e.id].stateVersion
  }

  /** Nothing older of the same task is pending behind something handed over. */
  ghost predicate NothingLeftBehind(s: System) {
    forall e, r :: Handed(e) in s.log && r in s.db.outbox && r.event.id == e.id ==> e.version <= r.event.version
  }

  /**
   Handing a notification over respects versions, skips only archived or delivered ones,
   and never revives an archived one.
   */
  ghost predicate HandedInOrder(log: seq<LogEntry>) {
    && (forall i, j :: 0 <= i < j < |log| && log[i].Handed? && log[j].Handed? && log[i].event.id == log[j].event.id ==>
          log[i].event.version <= log[j].event.version)
    && (forall i, j :: 0 <= i < j < |log| && log[i].Recorded? && log[j].Handed? && log[i].event.id == log[j].event.id
                       && log[i].event.version < log[j].event.version ==>
          Quarantined(log[i].event) in log[..j] || Deleted(log[i].event) in log[..j])
    && (forall i, j :: 0 <= i < j < |log| && log[i].Quarantined? && log[j].Handed? ==> log[i].event != log[j].event)
  }

  ghost predicate LogInv(s: System) {
    Conserved(s) && Bounded(s) && NothingLeftBehind(s) && HandedInOrder(s.log)
  }

  lemma HandedInOrderSnoc(log: seq<LogEntry>, entry: LogEntry)
    requires HandedInOrder(log)
    requires entry.Handed? ==>
               && (forall e :: Handed(e) in log && e.id == entry.event.id ==> e.version <= entry.event.version)
               && (forall e :: Recorded(e) in log && e.id == entry.event.id && e.version < entry.event.version ==>
                     Quarantined(e) in log || Deleted(e) in log)
               && Quarantined(entry.event) !in log
    ensures HandedInOrder(log + [entry])
  {
    var next := log + [entry];
    forall i, j | 0 <= i < j < |next| && next[i].Recorded? && next[j].Handed? && next[i].event.id == next[j].event.id
                  && next[i].event.version < next[j].event.version
      ensures Quarantined(next[i].event) in next[..j] || Deleted(next[i].event) in next[..j]
    {
      assert next[..j] == log[..j];
      assert j == |log| ==> next[i] in log && log[..j] == log;
    }
    forall i | 0 <= i < |log| ensures log[i] in log {
    }
  }

  /** A commit records a version no log entry or row has yet. */
  lemma CommitIsNew(s: System, id: TaskId, task: StoredTask)
    requires DbInv(s) && LogInv(s) && Raises(s, id, task)
    ensures forall e :: Recorded(e) in s.log && e.id == id ==> e.version < task.life.stateVersion
  {
    forall e | Recorded(e) in s.log && e.id == id ensures e.version < task.life.stateVersion {
      assert Lookup(s.db, id) == Some(Said(s.last[id]));
    }
  }

  lemma RecordKeepsConserved(s: System, t: System, row: OutboxRow)
    requires Conserved(s)
    requires t.log == s.log + [Recorded(row.event)] && t.db.outbox == s.db.outbox + {row}
    requires t.db.quarantine == s.db.quarantine
    requires Recorded(row.event) !in s.log
    ensures Conserved(t)
  {
    var e := row.event;
    assert forall l :: l in t.log <==> l in s.log || l == Recorded(e);
    forall x ensures Pending(t, x) <==> Pending(s, x) || x == e {
      if x == e {
        assert row in t.db.outbox;
      }
    }
    forall x | Recorded(x) in t.log ensures Accounted(t, x) {
      assert x != e ==> Accounted(s, x);
    }
  }

  /** The bounds after a commit, recorded or not. */
  lemma CommittedKeepsBounds(s: System, id: TaskId, task: StoredTask, now: nat)
    requires DbInv(s) && LogInv(s) && Raises(s, id, task)
    ensures Bounded(Committed(s, id, task, now)) && NothingLeftBehind(Committed(s, id, task, now))
  {
    var t := Committed(s, id, task, now);
    CommitIsNew(s, id, task);
    assert forall l :: l in t.log ==> l in s.log || l == Recorded(EventOf(id, task.life));
    assert forall r :: r in t.db.outbox ==> r in s.db.outbox || r.event == EventOf(id, task.life);
    assert id in s.last ==> Lookup(s.db, id) == Some(Said(s.last[id]));
  }

  lemma CommittedKeepsLog(s: System, id: TaskId, task: StoredTask, now: nat)
    requires DbInv(s) && LogInv(s) && Raises(s, id, task)
    ensures LogInv(Committed(s, id, task, now))
  {
    var e := EventOf(id, task.life);
    var t := Committed(s, id, task, now);
    CommittedKeepsBounds(s, id, task, now);
    if s.enabled {
      CommitIsNew(s, id, task);
      RecordKeepsConserved(s, t, OutboxRow(e, CreationTime(s.db.outbox, now)));
      HandedInOrderSnoc(s.log, Recorded(e));
    } else {
      FrameKeepsConserved(s, t);
    }
  }

  lemma FrameKeepsConserved(s: System, t: System)
    requires Conserved(s) && t.log == s.log && t.db.outbox == s.db.outbox && t.db.quarantine == s.db.quarantine
    ensures Conserved(t)
  {
    assert forall x :: Pending(t, x) <==> Pending(s, x);
    assert forall x :: Accounted(t, x) <==> Accounted(s, x);
  }

  /** The row that heads the window is the oldest pending one of its task. */
  lemma SendKeepsLog(s: System)
    requires DbInv(s) && WorkerInv(s) && LogInv(s) && s.worker.Scanning? && s.worker.rest != []
    ensures LogInv(WorkerStep(s, Send))
  {
    var row := s.worker.rest[0];
    var t := WorkerStep(s, Send);
    WindowTail(s.db.outbox, s.worker.rest);
    assert Pending(s, row.event);
    assert forall l :: l in t.log <==> l in s.log || l == Handed(row.event);
    assert forall x :: Pending(t, x) <==> Pending(s, x);
    assert forall x :: Accounted(t, x) <==> Accounted(s, x);
    assert Accounted(s, row.event);
    forall e | Recorded(e) in s.log && e.id == row.event.id && e.version < row.event.version
      ensures Quarantined(e) in s.log || Deleted(e) in s.log
    {
      assert Accounted(s, e);
    }
    HandedInOrderSnoc(s.log, Handed(row.event));
  }

  /** `t` follows `s` by the removal of one pending row, which is logged. */
  ghost predicate Removes(s: System, t: System, row: OutboxRow, entry: LogEntry) {
    && row in s.db.outbox && entry.event == row.event
    && t.log == s.log + [entry] && t.db.outbox == s.db.outbox - {row} && t.last == s.last
    && ((entry.Deleted? && Acknowledged(row.event) in s.log && t.db.quarantine == s.db.quarantine)
        || (entry.Quarantined? && t.db.quarantine == s.db.quarantine + {row.event}))
  }

  lemma RemovePending(s: System, t: System, row: OutboxRow, entry: LogEntry, x: Event)
    requires DbInv(s) && Removes(s, t, row, entry)
    ensures Pending(t, x) <==> Pending(s, x) && x != row.event
  {
    if Pending(s, x) && x != row.event {
      var r :| r in s.db.outbox && r.event == x;
      assert r in t.db.outbox;
    }
  }

  lemma RemoveKeepsConserved(s: System, t: System, row: OutboxRow, entry: LogEntry)
    requires DbInv(s) && Conserved(s) && Removes(s, t, row, entry)
    ensures Conserved(t)
  {
    assert Pending(s, row.event);
    assert forall l :: l in t.log <==> l in s.log || l == entry;
    forall x ensures Pending(t, x) <==> Pending(s, x) && x != row.event {
      RemovePending(s, t, row, entry, x);
    }
    forall x | Recorded(x) in t.log ensures Accounted(t, x) {
      assert Accounted(s, x);
    }
  }

  lemma RemoveKeepsLog(s: System, t: System, row: OutboxRow, entry: LogEntry)
    requires DbInv(s) && LogInv(s) && Removes(s, t, row, entry)
    ensures LogInv(t)
  {
    RemoveKeepsConserved(s, t, row, entry);
    HandedInOrderSnoc(s.log, entry);
    assert forall l :: l in t.log ==> l in s.log || l == entry;
  }

  /** The bus's answers move no row. */
  lemma AnswerKeepsLog(s: System, t: System, entry: LogEntry)
    requires LogInv(s) && t.log == s.log + [entry] && t.db == s.db && t.last == s.last
    requires entry.Acknowledged? || entry.Missed?
    ensures LogInv(t)
  {
    assert forall l :: l in t.log <==> l in s.log || l == entry;
    assert forall x :: Pending(t, x) <==> Pending(s, x);
    assert forall x :: Accounted(t, x) <==> Accounted(s, x);
    HandedInOrderSnoc(s.log, entry);
  }

  /** Steps that touch neither the outbox, the archive, the log nor the remembered commits. */
  lemma FrameKeepsLog(s: System, t: System)
    requires LogInv(s) && t.log == s.log && t.last == s.last
    requires t.db.outbox == s.db.outbox && t.db.quarantine == s.db.quarantine
    ensures LogInv(t)
  {
    FrameKeepsConserved(s, t);
  }

  lemma ControlKeepsLog(s: System, id: TaskId, version: nat)
    requires DbInv(s) && LogInv(s)
    ensures LogInv(WorkerStep(s, Control(id, version)))
  {
    var t := WorkerStep(s, Control(id, version));
    if exists row :: QuarantineAllowed(s, row, id, version) {
      var row :| QuarantineAllowed(s, row, id, version)
              && t == s.(db := Quarantine(s.db, row), worker := Top, failure := None, log := s.log + [Quarantined(row.event)]);
      RemoveKeepsLog(s, t, row, Quarantined(row.event));
    }
  }

  lemma MarkKeepsLog(s: System)
    requires DbInv(s) && WorkerInv(s) && LogInv(s) && s.worker.Marking?
    ensures LogInv(WorkerStep(s, Mark))
  {
    assert Window(s.worker)[0] in s.db.outbox;
    MarkRemovesRow(s.db, s.worker.row);
    RemoveKeepsLog(s, WorkerStep(s, Mark), s.worker.row, Deleted(s.worker.row.event));
  }

  lemma QuietFrame(s: System, op: WorkerOp)
    requires !op.Control? && !op.Send? && !op.BusAccepts? && !op.Mark? && !op.Corrupt? && !op.BusFails? && !op.MarkFails?
    ensures var t := WorkerStep(s, op); t.log == s.log && t.last == s.last && t.db == s.db
  {
  }

  lemma WorkerStepKeepsLog(s: System, op: WorkerOp)
    requires DbInv(s) && WorkerInv(s) && LogInv(s)
    ensures LogInv(WorkerStep(s, op))
  {
    match op
    case Control(id, version) => ControlKeepsLog(s, id, version);
    case Send =>
      if s.worker.Scanning? && s.worker.rest != [] {
        SendKeepsLog(s);
      }
    case BusAccepts =>
      if s.worker.Sending? {
        AnswerKeepsLog(s, WorkerStep(s, op), Acknowledged(s.worker.row.event));
      }
    case Corrupt =>
      if s.worker.Scanning? && s.worker.rest != [] {
        AnswerKeepsLog(s, WorkerStep(s, op), Missed(s.worker.rest[0].event));
      }
    case BusFails =>
      if s.worker.Sending? {
        AnswerKeepsLog(s, WorkerStep(s, op), Missed(s.worker.row.event));
      }
    case MarkFails =>
      if s.worker.Marking? {
        AnswerKeepsLog(s, WorkerStep(s, op), Missed(s.worker.row.event));
      }
    case Mark =>
      if s.worker.Marking? {
        MarkKeepsLog(s);
      }
    case _ =>
      QuietFrame(s, op);
      FrameKeepsLog(s, WorkerStep(s, op));
  }

  lemma StepKeepsLog(s: System, a: Action)
    requires DbInv(s) && WorkerInv(s) && LogInv(s)
    ensures LogInv(Step(s, a))
  {
    match a
    case Write(w, now) =>
      var written := Written(s, w, now);
      if written.Some? {
        WrittenRaises(s, w, now);
        CommittedKeepsLog(s, written.value.0, written.value.1, now);
      }
    case Prune(cutoff, maxRows) =>
      PruneDbKeepsDb(s, cutoff, maxRows);
      FrameKeepsLog(s, Step(s, a));
    case Publish(op) => WorkerStepKeepsLog(s, op);
    case _ => FrameKeepsLog(s, Step(s, a));
  }

  // ---- causes ----

  /** What must be in the log before an entry. */
  ghost predicate Caused(before: seq<LogEntry>, entry: LogEntry) {
    match entry
    case Recorded(e) => Recorded(e) !in before
    case Handed(e) => Recorded(e) in before && Quarantined(e) !in before
    case Acknowledged(e) => Handed(e) in before
    case Missed(e) => Recorded(e) in before
    case Deleted(e) => Acknowledged(e) in before
    case Quarantined(e) => Recorded(e) in before && LastFailed(before) == Some(e) && OlderGone(before, e)
  }

  /** Every older recorded version of its task was deleted or archived. */
  ghost predicate OlderGone(before: seq<LogEntry>, e: Event) {
    forall x :: Recorded(x) in before && x.id == e.id && x.version < e.version ==> Deleted(x) in before || Quarantined(x) in before
  }

  /** The notification whose publication failed last. */
  function LastFailed(log: seq<LogEntry>): Option<Event> {
    if log == [] then None
    else if log[|log| - 1].Missed? then Some(log[|log| - 1].event)
    else LastFailed(log[..|log| - 1])
  }

  lemma LastFailedSnoc(log: seq<LogEntry>, entry: LogEntry)
    ensures LastFailed(log + [entry]) == if entry.Missed? then Some(entry.event) else LastFailed(log)
  {
    assert (log + [entry])[..|log|] == log;
  }

  /** The remembered failure is the last one and, while a notification is being handed over, its own. */
  ghost predicate FailureInv(s: System) {
    s.failure.Some? ==>
      && LastFailed(s.log) == s.failure
      && (s.worker.Sending? || s.worker.Marking? ==> s.failure == Some(s.worker.row.event))
  }

  lemma WorkerStepKeepsFailure(s: System, op: WorkerOp)
    requires FailureInv(s)
    ensures FailureInv(WorkerStep(s, op))
  {
    var t := WorkerStep(s, op);
    if t.failure.Some? && t.log != s.log {
      var entry := t.log[|s.log|];
      assert t.log == s.log + [entry];
      assert t.failure == if entry.Missed? then Some(entry.event) else s.failure;
      LastFailedSnoc(s.log, entry);
    }
  }

  lemma StepKeepsFailure(s: System, a: Action)
    requires FailureInv(s)
    ensures FailureInv(Step(s, a))
  {
    if a.Publish? {
      WorkerStepKeepsFailure(s, a.op);
    } else if a.Write? && Written(s, a.write, a.now).Some? {
      var (id, task) := Written(s, a.write, a.now).value;
      LastFailedSnoc(s.log, Recorded(EventOf(id, task.life)));
    }
  }

  ghost predicate Causal(log: seq<LogEntry>) {
    log == [] || (Causal(log[..|log| - 1]) && Caused(log[..|log| - 1], log[|log| - 1]))
  }

  lemma CausalSnoc(log: seq<LogEntry>, entry: LogEntry)
    requires Causal(log) && Caused(log, entry)
    ensures Causal(log + [entry])
  {
    assert (log + [entry])[..|log|] == log;
  }

  lemma {:induction false} CausalAt(log: seq<LogEntry>, j: nat)
    requires Causal(log) && j < |log|
    ensures Caused(log[..j], log[j])
  {
    if j < |log| - 1 {
      CausalAt(log[..|log| - 1], j);
      assert log[..|log| - 1][..j] == log[..j];
    }
  }

  /** A deleted notification was handed over and accepted, in that order, before. */
  lemma DeletedWasHanded(log: seq<LogEntry>, j: nat, e: Event)
    requires Causal(log) && j <= |log| && Deleted(e) in log[..j]
    ensures exists h, a :: 0 <= h < a < j && log[h] == Handed(e) && log[a] == Acknowledged(e)
  {
    var d :| 0 <= d < j && log[d] == Deleted(e);
    CausalAt(log, d);
    var a :| 0 <= a < d && log[a] == Acknowledged(e);
    CausalAt(log, a);
    var h :| 0 <= h < a && log[h] == Handed(e);
  }

  lemma PendingIsRecorded(s: System, row: OutboxRow)
    requires LogInv(s) && row in s.db.outbox
    ensures Recorded(row.event) in s.log
  {
    assert Pending(s, row.event) && Accounted(s, row.event);
  }

  lemma HeadIsOldest(s: System, row: OutboxRow)
    requires DbInv(s) && LogInv(s) && IsHead(s.db.outbox, row)
    ensures OlderGone(s.log, row.event)
  {
    forall x | Recorded(x) in s.log && x.id == row.event.id && x.version < row.event.version
      ensures Deleted(x) in s.log || Quarantined(x) in s.log
    {
      assert Accounted(s, x);
      if Pending(s, x) {
        var r :| r in s.db.outbox && r.event == x;
        assert false;
      }
    }
  }

  lemma ControlKeepsCausal(s: System, id: TaskId, version: nat)
    requires DbInv(s) && LogInv(s) && FailureInv(s) && Causal(s.log)
    ensures Causal(WorkerStep(s, Control(id, version)).log)
  {
    if row :| QuarantineAllowed(s, row, id, version) && WorkerStep(s, Control(id, version)).log == s.log + [Quarantined(row.event)] {
      PendingIsRecorded(s, row);
      HeadIsOldest(s, row);
      CausalSnoc(s.log, Quarantined(row.event));
    }
  }

  lemma EntryIsCaused(s: System, op: WorkerOp)
    requires WorkerInv(s) && LogInv(s) && !op.Control? && WorkerStep(s, op).log != s.log
    ensures var log := WorkerStep(s, op).log;
      log == s.log + [log[|s.log|]] && Caused(s.log, log[|s.log|])
  {
    assert Window(s.worker) != [] && Window(s.worker)[0] in s.db.outbox;
    PendingIsRecorded(s, Window(s.worker)[0]);
  }

  lemma WorkerStepKeepsCausal(s: System, op: WorkerOp)
    requires DbInv(s) && WorkerInv(s) && LogInv(s) && FailureInv(s) && Causal(s.log)
    ensures Causal(WorkerStep(s, op).log)
  {
    var log := WorkerStep(s, op).log;
    if op.Control? {
      ControlKeepsCausal(s, op.id, op.version);
    } else if log != s.log {
      EntryIsCaused(s, op);
      CausalSnoc(s.log, log[|s.log|]);
    }
  }

  lemma StepKeepsCausal(s: System, a: Action)
    requires DbInv(s) && WorkerInv(s) && LogInv(s) && FailureInv(s) && Causal(s.log)
    ensures Causal(Step(s, a).log)
  {
    if a.Publish? {
      WorkerStepKeepsCausal(s, a.op);
    } else if a.Write? && Written(s, a.write, a.now).Some? && s.enabled {
      var (id, task) := Written(s, a.write, a.now).value;
      WrittenRaises(s, a.write, a.now);
      CommitIsNew(s, id, task);
      CausalSnoc(s.log, Recorded(EventOf(id, task.life)));
    }
  }

  // ---- what a notification says ----

  /** Every recorded notification carries the state its version was committed with. */
  ghost predicate Truthful(s: System) {
    forall e :: Recorded(e) in s.log ==> (e.id, e.version) in s.history && s.history[(e.id, e.version)] == e.state
  }

  lemma StepKeepsTruth(s: System, a: Action)
    requires DbInv(s) && WorkerInv(s) && LogInv(s) && Truthful(s)
    ensures Truthful(Step(s, a))
  {
    if a.Publish? {
      WorkerStepRecordsNothing(s, a.op);
    } else if a.Write? && Written(s, a.write, a.now).Some? {
      var (id, task) := Written(s, a.write, a.now).value;
      WrittenRaises(s, a.write, a.now);
      CommitIsNew(s, id, task);
    }
  }

  lemma WorkerStepRecordsNothing(s: System, op: WorkerOp)
    ensures WorkerStep(s, op).history == s.history
    ensures forall e :: Recorded(e) in WorkerStep(s, op).log <==> Recorded(e) in s.log
  {
  }

  // ---- every run ----

  ghost predicate Inv(s: System) {
    DbInv(s) && WorkerInv(s) && LogInv(s) && FailureInv(s) && Causal(s.log) && Truthful(s)
  }

  lemma {:induction false} InvHolds(actions: seq<Action>)
    ensures Inv(Exec(actions))
  {
    if actions == [] {
      assert Window(INITIAL.worker) == [];
    } else {
      var s := Exec(actions[..|actions| - 1]);
      InvHolds(actions[..|actions| - 1]);
      StepKeepsDb(s, actions[|actions| - 1]);
      StepKeepsWorker(s, actions[|actions| - 1]);
      StepKeepsLog(s, actions[|actions| - 1]);
      StepKeepsFailure(s, actions[|actions| - 1]);
      StepKeepsCausal(s, actions[|actions| - 1]);
      StepKeepsTruth(s, actions[|actions| - 1]);
    }
  }

  /**
   Conservation, at every reachable state: a recorded notification is pending,
   archived or deleted, and only one of these; it is deleted only if the bus
   accepted it.
   */
  lemma OutboxConservation(actions: seq<Action>, e: Event)
    requires Recorded(e) in Exec(actions).log
    ensures var s := Exec(actions);
      && Accounted(s, e)
      && (Quarantined(e) in s.log <==> e in s.db.quarantine)
      && (Deleted(e) in s.log ==> Acknowledged(e) in s.log)
  {
    InvHolds(actions);
  }

  /**
   Publication order, over every run: for one task versions are handed to the bus
   in nondecreasing order, nothing is handed over before it was recorded or after
   it was archived, and deletion follows acceptance, which follows handing over.
   */
  lemma PublicationOrder(actions: seq<Action>)
    ensures HandedInOrder(Exec(actions).log) && Causal(Exec(actions).log)
  {
    InvHolds(actions);
  }

  /** When a version is handed over, every older recorded version of its task was handed over before or archived. */
  lemma SkippedOnlyIfArchived(actions: seq<Action>, i: nat, j: nat)
    requires i < j < |Exec(actions).log|
    requires Exec(actions).log[i].Recorded? && Exec(actions).log[j].Handed?
    requires Exec(actions).log[i].event.id == Exec(actions).log[j].event.id
    requires Exec(actions).log[i].event.version < Exec(actions).log[j].event.version
    ensures var log := Exec(actions).log;
      || Quarantined(log[i].event) in log[..j]
      || exists h :: 0 <= h < j && log[h] == Handed(log[i].event)
  {
    InvHolds(actions);
    var log := Exec(actions).log;
    if Quarantined(log[i].event) !in log[..j] {
      DeletedWasHanded(log, j, log[i].event);
    }
  }

  /** Entry `i` of the log is the failure of `e`, and no publication fails between it and entry `j`. */
  ghost predicate FailedLast(log: seq<LogEntry>, e: Event, i: nat, j: nat) {
    i < j <= |log| && log[i] == Missed(e) && forall k :: i < k < j ==> !log[k].Missed?
  }

  lemma {:induction false} LastFailedAt(log: seq<LogEntry>, j: nat) returns (i: nat)
    requires j <= |log| && LastFailed(log[..j]).Some?
    ensures FailedLast(log, LastFailed(log[..j]).value, i, j)
  {
    if log[j - 1].Missed? {
      i := j - 1;
    } else {
      assert log[..j][..j - 1] == log[..j - 1];
      i := LastFailedAt(log, j - 1);
    }
  }

  /**
   Only the notification whose publication failed last is ever archived, and only after
   every older version of its task is gone.
   */
  lemma ArchivedHadFailed(actions: seq<Action>, j: nat)
    requires j < |Exec(actions).log| && Exec(actions).log[j].Quarantined?
    ensures exists i: nat :: FailedLast(Exec(actions).log, Exec(actions).log[j].event, i, j)
    ensures OlderGone(Exec(actions).log[..j], Exec(actions).log[j].event)
  {
    InvHolds(actions);
    var log := Exec(actions).log;
    CausalAt(log, j);
    var i := LastFailedAt(log, j);
  }

  /** The remembered failure is the latest and, while a notification is being handed over, never another one's. */
  lemma FailureIsCurrent(actions: seq<Action>)
    ensures var s := Exec(actions);
      s.failure.Some? ==>
        && (exists i: nat :: FailedLast(s.log, s.failure.value, i, |s.log|))
        && (s.worker.Sending? || s.worker.Marking? ==> s.failure == Some(s.worker.row.event))
  {
    InvHolds(actions);
    var log := Exec(actions).log;
    assert log[..|log|] == log;
    if Exec(actions).failure.Some? {
      var i := LastFailedAt(log, |log|);
    }
  }

  /** While the outbox is enabled every commit leaves a pending notification of exactly what it committed. */
  lemma CommitIsAnnounced(actions: seq<Action>, w: WriteOp, now: nat)
    requires Exec(actions).enabled && Written(Exec(actions), w, now).Some?
    ensures var (id, task) := Written(Exec(actions), w, now).value;
      var e := Event(id, task.life.stateVersion, task.life.state);
      Recorded(e) in Step(Exec(actions), Write(w, now)).log && Pending(Step(Exec(actions), Write(w, now)), e)
  {
    var s := Exec(actions);
    var (id, task) := Written(s, w, now).value;
    var e := Event(id, task.life.stateVersion, task.life.state);
    assert OutboxRow(e, CreationTime(s.db.outbox, now)) in Step(s, Write(w, now)).db.outbox;
    assert Step(s, Write(w, now)).log[|s.log|] == Recorded(e);
  }

  /** Wherever a notification is, it tells the state that its version of the task was committed with. */
  lemma NotificationsAreTruthful(actions: seq<Action>, e: Event)
    requires var s := Exec(actions);
      Recorded(e) in s.log || Handed(e) in s.log || Deleted(e) in s.log || e in s.db.quarantine || Pending(s, e)
    ensures var s := Exec(actions); (e.id, e.version) in s.history && s.history[(e.id, e.version)] == e.state
  {
    InvHolds(actions);
    assert e in Exec(actions).db.quarantine ==> Quarantined(e) in Exec(actions).log;
  }

  /** No step forgets a task's latest commit or lowers its version. */
  lemma StepKeepsLast(s: System, a: Action)
    requires DbInv(s)
    ensures forall id :: id in s.last ==> id in Step(s, a).last && s.last[id].stateVersion <= Step(s, a).last[id].stateVersion
  {
    if a.Write? && Written(s, a.write, a.now).Some? {
      var (id, task) := Written(s, a.write, a.now).value;
      WrittenRaises(s, a.write, a.now);
      assert id in s.last ==> Lookup(s.db, id) == Some(Said(s.last[id]));
    } else if a.Publish? {
      WorkerStepFrame(s, a.op);
    }
  }

  lemma {:induction false} LastOnlyRises(actions: seq<Action>, i: nat, id: TaskId)
    requires i <= |actions| && id in Exec(actions[..i]).last
    ensures id in Exec(actions).last && Exec(actions[..i]).last[id].stateVersion <= Exec(actions).last[id].stateVersion
  {
    if i == |actions| {
      assert actions[..i] == actions;
    } else {
      var before := actions[..|actions| - 1];
      assert before[..i] == actions[..i];
      LastOnlyRises(before, i, id);
      InvHolds(before);
      StepKeepsLast(Exec(before), actions[|actions| - 1]);
    }
  }

  /**
   Checkpoint authority, over every run: once a task was accepted its lookup
   succeeds for ever, across prunes, restarts and worker steps. It answers with the
   task's last commit, its version never falls, and no notification of the task,
   wherever it went, is newer.
   */
  lemma CheckpointAuthority(actions: seq<Action>, i: nat, id: TaskId)
    requires i <= |actions| && id in Exec(actions[..i]).last
    ensures var was, s := Exec(actions[..i]), Exec(actions);
      && id in s.last && Lookup(was.db, id) == Some(Said(was.last[id])) && Lookup(s.db, id) == Some(Said(s.last[id]))
      && was.last[id].stateVersion <= s.last[id].stateVersion
      && (forall r :: r in s.db.outbox && r.event.id == id ==> r.event.version <= s.last[id].stateVersion)
      && (forall e :: e in s.db.quarantine && e.id == id ==> e.version <= s.last[id].stateVersion)
      && (forall e: Event :: e.id == id && (Recorded(e) in s.log || Handed(e) in s.log || Deleted(e) in s.log) ==>
            e.version <= s.last[id].stateVersion)
  {
    InvHolds(actions[..i]);
    InvHolds(actions);
    LastOnlyRises(actions, i, id);
    var s := Exec(actions);
    forall r | r in s.db.outbox && r.event.id == id ensures r.event.version <= s.last[id].stateVersion {
      assert Pending(s, r.event);
    }
    forall e | e in s.db.quarantine && e.id == id ensures e.version <= s.last[id].stateVersion {
      assert Quarantined(e) in s.log;
    }
  }
}
