/** What the durable store holds, as plain values, and what each transaction makes of it. */
module DurableDbs {
  import opened TaskStates
  import opened TaskRecords
  import opened Keysets
  import opened MemoryAccounting
  import PaddedDecimals
  import Retention

  /** A committed notification: the state that version `version` of task `id` reached. */
  datatype Event = Event(id: TaskId, version: nat, state: TaskState)

  /** An outbox row; rows are read in the order of time, id and version. */
  datatype OutboxRow = OutboxRow(event: Event, createdAt: nat)

  datatype Checkpoint = Checkpoint(version: nat, state: TaskState)

  datatype Db = Db(
    tasks: Tasks,
    outbox: set<OutboxRow>,
    quarantine: set<Event>,
    checkpoints: map<TaskId, Checkpoint>)

  const EMPTY_DB := Db(map[], {}, {}, map[])

  function Max(a: nat, b: nat): nat {
    if a >= b then a else b
  }

  /** `t` is the latest creation time among the rows. */
  predicate IsLatest(outbox: set<OutboxRow>, t: nat) {
    (exists r :: r in outbox && r.createdAt == t) && forall r :: r in outbox ==> r.createdAt <= t
  }

  lemma {:induction false} LatestExists(outbox: set<OutboxRow>)
    requires outbox != {}
    ensures exists t :: IsLatest(outbox, t)
  {
    var r :| r in outbox;
    if outbox == {r} {
      assert IsLatest(outbox, r.createdAt);
    } else {
      LatestExists(outbox - {r});
      var t :| IsLatest(outbox - {r}, t);
      var w :| w in outbox - {r} && w.createdAt == t;
      var m := Max(t, r.createdAt);
      forall x | x in outbox ensures x.createdAt <= m {
        assert x == r || x in outbox - {r};
      }
      assert w in outbox;
      assert IsLatest(outbox, m);
    }
  }

  /** `MAX(now, COALESCE(MAX(created_at_ms), now))`: never before an existing row, even if the clock went back. */
  function CreationTime(outbox: set<OutboxRow>, now: nat): (t: nat)
    ensures now <= t && forall r :: r in outbox ==> r.createdAt <= t
    ensures t == now || exists r :: r in outbox && r.createdAt == t
  {
    if outbox == {} then now
    else
      LatestExists(outbox);
      var latest :| IsLatest(outbox, latest);
      Max(now, latest)
  }

  function EventOf(id: TaskId, life: Lifecycle): Event {
    Event(id, life.stateVersion, life.state)
  }

  function InsertEvent(outbox: set<OutboxRow>, event: Event, now: nat): set<OutboxRow> {
    outbox + {OutboxRow(event, CreationTime(outbox, now))}
  }

  /** One lifecycle commit: the record and, when enabled, its notification, together. */
  function Commit(db: Db, enabled: bool, id: TaskId, task: StoredTask, now: nat): Db {
    db.(tasks := db.tasks[id := task],
        outbox := if enabled then InsertEvent(db.outbox, EventOf(id, task.life), now) else db.outbox)
  }

  predicate RowBefore(a: OutboxRow, b: OutboxRow) {
    || a.createdAt < b.createdAt
    || (a.createdAt == b.createdAt && a.event.id < b.event.id)
    || (a.createdAt == b.createdAt && a.event.id == b.event.id && a.event.version < b.event.version)
  }

  /** The order of the rows is that of their columns: the time, the text of the task id, and the version. */
  lemma RowOrderIsColumnOrder(a: OutboxRow, b: OutboxRow)
    ensures var x, y := PaddedDecimals.Padded(a.event.id), PaddedDecimals.Padded(b.event.id);
      RowBefore(a, b) <==>
        || a.createdAt < b.createdAt
        || (a.createdAt == b.createdAt && PaddedDecimals.LexLess(x, y))
        || (a.createdAt == b.createdAt && x == y && a.event.version < b.event.version)
  {
    PaddedDecimals.PaddedOrder(a.event.id, b.event.id);
  }

  predicate IsHead(outbox: set<OutboxRow>, r: OutboxRow) {
    r in outbox && forall x :: x in outbox && x != r ==> RowBefore(r, x)
  }

  ghost predicate OneRowPerVersion(outbox: set<OutboxRow>) {
    forall r, s :: r in outbox && s in outbox && r.event.id == s.event.id && r.event.version == s.event.version ==> r == s
  }

  lemma {:induction false} HeadExists(outbox: set<OutboxRow>)
    requires outbox != {} && OneRowPerVersion(outbox)
    ensures exists r :: IsHead(outbox, r)
  {
    var r :| r in outbox;
    var rest := outbox - {r};
    if rest == {} {
      assert forall x :: x in outbox ==> x == r || x in rest;
      assert IsHead(outbox, r);
    } else {
      HeadExists(rest);
      var h :| IsHead(rest, h);
      var head := if RowBefore(r, h) then r else h;
      forall x | x in outbox && x != head ensures RowBefore(head, x) {
        assert x == r || x in rest;
      }
      assert IsHead(outbox, head);
    }
  }

  /** The oldest pending row. */
  function Head(outbox: set<OutboxRow>): (r: OutboxRow)
    requires outbox != {} && OneRowPerVersion(outbox)
    ensures IsHead(outbox, r)
  {
    HeadExists(outbox);
    var r :| IsHead(outbox, r);
    r
  }

  function MarkPublished(db: Db, id: TaskId, version: nat): Db {
    db.(outbox := set r | r in db.outbox && !(r.event.id == id && r.event.version == version))
  }

  /** Moves a row to the archive; done only for the current head. */
  function Quarantine(db: Db, r: OutboxRow): Db {
    db.(outbox := db.outbox - {r}, quarantine := db.quarantine + {r.event})
  }

  function HasEvents(outbox: set<OutboxRow>, id: TaskId): bool {
    exists r :: r in outbox && r.event.id == id
  }

  /** Terminal tasks finished before the cutoff that owe no notification, keyed by finish time. */
  function PrunableKeys(db: Db, cutoff: nat): set<Key> {
    set id | id in db.tasks && db.tasks[id].life.state.IsTerminal()
             && db.tasks[id].life.finishedAt.Some? && db.tasks[id].life.finishedAt.value < cutoff
             && !HasEvents(db.outbox, id)
           :: Key(db.tasks[id].life.finishedAt.value, id)
  }

  function CheckpointOf(life: Lifecycle): Checkpoint {
    Checkpoint(life.stateVersion, life.state)
  }

  /** Saves the checkpoint of one task and deletes its row. */
  function PruneOne(db: Db, id: TaskId): Db {
    if id !in db.tasks then db
    else db.(tasks := db.tasks - {id}, checkpoints := db.checkpoints[id := CheckpointOf(db.tasks[id].life)])
  }

  function PruneAll(db: Db, keys: seq<Key>): Db {
    if keys == [] then db else PruneOne(PruneAll(db, keys[..|keys| - 1]), keys[|keys| - 1].id)
  }

  /** A bounded prune: the oldest prunable tasks, at most `maxRows` of them. */
  function PruneDb(db: Db, cutoff: nat, maxRows: nat): Db {
    PruneAll(db, TakeKeys(SortKeys(PrunableKeys(db, cutoff)), maxRows))
  }

  /** Tasks with a pending notification. */
  ghost function Owing(outbox: set<OutboxRow>): set<TaskId> {
    set r | r in outbox :: r.event.id
  }

  /** Every removed record left its checkpoint, and no other checkpoint changed. */
  ghost predicate Checkpointed(before: Db, after: Db) {
    && (forall id :: id in before.tasks && id !in after.tasks ==>
          id in after.checkpoints
          && after.checkpoints[id] == Checkpoint(before.tasks[id].life.stateVersion, before.tasks[id].life.state))
    && (forall id :: id !in before.tasks || id in after.tasks ==>
          (id in after.checkpoints <==> id in before.checkpoints)
          && (id in before.checkpoints ==> after.checkpoints[id] == before.checkpoints[id]))
  }

  lemma {:induction false} PruneAllMeaning(db: Db, keys: seq<Key>)
    ensures var pruned := PruneAll(db, keys);
      && pruned.tasks == db.tasks - KeyIds(keys)
      && pruned.outbox == db.outbox && pruned.quarantine == db.quarantine
      && Checkpointed(db, pruned)
  {
    if keys == [] {
      assert db.tasks - KeyIds(keys) == db.tasks;
    } else {
      var init := keys[..|keys| - 1];
      PruneAllMeaning(db, init);
      KeyIdsSnoc(keys, |keys| - 1);
      assert keys[..|keys|] == keys;
      assert db.tasks - KeyIds(init) - {keys[|keys| - 1].id} == db.tasks - KeyIds(keys);
    }
  }

  lemma PrunableAreExpired(db: Db, cutoff: nat)
    ensures Retention.KeysExpired(PrunableKeys(db, cutoff), db.tasks, Owing(db.outbox), cutoff)
  {
    forall id: TaskId ensures HasEvents(db.outbox, id) <==> id in Owing(db.outbox) {
    }
  }

  /**
   A prune removes the oldest expired tasks that owe no notification, as many as the
   limit allows, and leaves a checkpoint of each removed record; nothing else changes.
   */
  lemma PruneMeaning(db: Db, cutoff: nat, maxRows: nat)
    ensures var pruned := PruneDb(db, cutoff, maxRows);
      var count := |TakeKeys(SortKeys(PrunableKeys(db, cutoff)), maxRows)|;
      && Retention.PrunesOldest(db.tasks, pruned.tasks, Owing(db.outbox), cutoff, maxRows, count)
      && pruned.outbox == db.outbox && pruned.quarantine == db.quarantine
      && Checkpointed(db, pruned)
  {
    PrunableAreExpired(db, cutoff);
    PruneAllMeaning(db, TakeKeys(SortKeys(PrunableKeys(db, cutoff)), maxRows));
    Retention.TakingPrunesOldest(PrunableKeys(db, cutoff), db.tasks, Owing(db.outbox), cutoff, maxRows);
  }

  /** The retained task, or else its terminal checkpoint. */
  function Lookup(db: Db, id: TaskId): Option<Checkpoint> {
    if id in db.tasks then Some(CheckpointOf(db.tasks[id].life))
    else if id in db.checkpoints then Some(db.checkpoints[id])
    else None
  }

  /** Pending notifications belong to retained tasks and are no newer than them; one row per version. */
  ghost predicate OutboxOk(db: Db) {
    && (forall r :: r in db.outbox ==> r.event.id in db.tasks && r.event.version <= db.tasks[r.event.id].life.stateVersion)
    && OneRowPerVersion(db.outbox)
  }

  /** A commit that raises the version keeps the outbox in order. */
  lemma CommitKeepsOutbox(db: Db, enabled: bool, id: TaskId, task: StoredTask, now: nat)
    requires OutboxOk(db)
    requires id in db.tasks ==> db.tasks[id].life.stateVersion < task.life.stateVersion
    ensures OutboxOk(Commit(db, enabled, id, task, now))
  {
  }
}
