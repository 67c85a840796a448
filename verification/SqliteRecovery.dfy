/** Crash recovery over the durable store, whose rows outlive the process. */
module SqliteRecoveries {
  import opened TaskStates
  import opened TaskRecords
  import opened Keysets
  import opened MemoryAccounting
  import opened MemoryStores
  import opened DurableDbs
  import opened SqliteStores
  import opened Recovery
  import SqliteListings
  import Lifecycle

  /** The write of a recovered running task succeeds. */
  predicate CanRecover(task: StoredTask, outboxEnabled: bool, notice: Notice) {
    task.life.state.Running? ==> task.life.stateVersion < I64_MAX && NoticeError(outboxEnabled, notice).None?
  }

  ghost predicate AllRecoverable(tasks: Tasks, outboxEnabled: bool, notices: TaskId -> Notice) {
    forall id :: id in tasks ==> CanRecover(tasks[id], outboxEnabled, notices(id))
  }

  function RunningIds(tasks: Tasks): set<TaskId> {
    set id | id in tasks && tasks[id].life.state.Running?
  }

  /** Recovering a running task leaves its notification in an enabled outbox. */
  ghost predicate Announced(outbox: set<OutboxRow>, orig: Tasks, id: TaskId)
    requires id in orig
  {
    orig[id].life.state.Running? ==>
      exists row :: row in outbox && row.event == EventOf(id, Recovered(id, orig[id]).life)
  }

  /** What recovery leaves alone, and what it adds to the outbox for the tasks in `done`. */
  ghost predicate RestKept(before: Db, db: Db, enabled: bool, orig: Tasks, done: set<TaskId>) {
    && db.quarantine == before.quarantine && db.checkpoints == before.checkpoints
    && before.outbox <= db.outbox
    && (!enabled ==> db.outbox == before.outbox)
    && (enabled ==> forall id :: id in done && id in orig ==> Announced(db.outbox, orig, id))
  }

  lemma RecoverCommandSucceeds(id: TaskId, task: StoredTask)
    requires task.life.state.Running? && task.life.stateVersion < U64_MAX
    ensures TransitionResult(task.life, Lifecycle.RecoverCommand(id, task.life)) == Ok(Recovered(id, task).life)
    ensures Recovered(id, task) == task.(life := Recovered(id, task).life)
  {
  }

  /** The database is `before` with the tasks in `done` recovered and nothing else changed. */
  ghost predicate Recovering(before: Db, db: Db, enabled: bool, done: set<TaskId>) {
    RecoveredIn(before.tasks, db.tasks, done) && RestKept(before, db, enabled, before.tasks, done)
  }

  /** Recovery stopped somewhere: some tasks are recovered, the others are as they were. */
  ghost predicate PartlyRecovered(before: Db, db: Db, enabled: bool) {
    exists done :: Recovering(before, db, enabled, done)
  }

  /** The database after one listed task was handled. */
  function Rewritten(db: Db, enabled: bool, summary: Summary, now: nat): Db {
    if summary.task.life.state.Running?
    then Commit(db, enabled, summary.id, Recovered(summary.id, summary.task), now)
    else db
  }

  lemma CommitRecovers(before: Db, db: Db, enabled: bool, done: set<TaskId>, id: TaskId, now: nat)
    requires Recovering(before, db, enabled, done) && id in before.tasks && id !in done
    ensures Recovering(before, Rewritten(db, enabled, Summary(id, before.tasks[id]), now), enabled, done + {id})
  {
    var orig := before.tasks;
    if orig[id].life.state.Running? {
      RecoveredInStep(orig, db.tasks, done, id);
      var next := Commit(db, enabled, id, Recovered(id, orig[id]), now);
      if enabled {
        assert OutboxRow(EventOf(id, Recovered(id, orig[id]).life), CreationTime(db.outbox, now)) in next.outbox;
        forall x | x in done + {id} && x in orig ensures Announced(next.outbox, orig, x) {
          assert x in done ==> Announced(db.outbox, orig, x);
        }
      }
    }
  }

  /** The database after records `i` and on of a page, up to the first that cannot be written. */
  datatype Run = Run(db: Db, reached: nat)

  function RunPage(db: Db, enabled: bool, records: seq<Summary>, notices: TaskId -> Notice, i: nat): Run
    requires i <= |records|
    decreases |records| - i
  {
    if i == |records| || !CanRecover(records[i].task, enabled, notices(records[i].id)) then Run(db, i)
    else RunPage(Rewritten(db, enabled, records[i], notices(records[i].id).now), enabled, records, notices, i + 1)
  }

  /** The tasks done after `i` records of a page. */
  function DoneAfter(done: set<TaskId>, keys: seq<Key>, i: nat): set<TaskId>
    requires i <= |keys|
  {
    done + KeyIds(keys[..i])
  }

  lemma NextListed(records: seq<Summary>, keys: seq<Key>, orig: Tasks, done: set<TaskId>, i: nat)
    requires Lists(records, keys, orig, done) && i < |records|
    ensures records[i].id in orig && records[i].task == orig[records[i].id]
    ensures records[i].id !in DoneAfter(done, keys, i)
    ensures DoneAfter(done, keys, i + 1) == DoneAfter(done, keys, i) + {records[i].id}
  {
    KeyIdsSnoc(keys, i);
    assert keys[i].id !in KeyIds(keys[..i]);
  }

  /** `dones[i]` are the tasks done when record `i` comes up, which is not one of them. */
  ghost predicate Stages(dones: seq<set<TaskId>>, records: seq<Summary>, orig: Tasks) {
    && |dones| == |records| + 1
    && forall i :: 0 <= i < |records| ==>
         && records[i].id in orig && records[i].task == orig[records[i].id]
         && records[i].id !in dones[i] && dones[i + 1] == dones[i] + {records[i].id}
  }

  ghost function StagesOf(done: set<TaskId>, keys: seq<Key>): seq<set<TaskId>> {
    seq(|keys| + 1, i requires 0 <= i <= |keys| => DoneAfter(done, keys, i))
  }

  lemma PageStages(records: seq<Summary>, keys: seq<Key>, orig: Tasks, done: set<TaskId>)
    requires Lists(records, keys, orig, done)
    ensures var dones := StagesOf(done, keys);
      Stages(dones, records, orig) && dones[0] == done && dones[|records|] == done + KeyIds(keys)
  {
    forall i | 0 <= i < |records|
      ensures records[i].id in orig && records[i].task == orig[records[i].id]
      ensures records[i].id !in DoneAfter(done, keys, i)
      ensures DoneAfter(done, keys, i + 1) == DoneAfter(done, keys, i) + {records[i].id}
    {
      NextListed(records, keys, orig, done, i);
    }
    assert keys[..|keys|] == keys;
  }

  /** A page recovers its tasks in order up to the first one that cannot be written. */
  lemma {:induction false} RunRecovers(
    before: Db, db: Db, enabled: bool, records: seq<Summary>, notices: TaskId -> Notice, dones: seq<set<TaskId>>, i: nat)
    requires i <= |records| && Stages(dones, records, before.tasks) && Recovering(before, db, enabled, dones[i])
    ensures var run := RunPage(db, enabled, records, notices, i);
      && i <= run.reached <= |records| && Recovering(before, run.db, enabled, dones[run.reached])
      && (forall k :: i <= k < run.reached ==> CanRecover(records[k].task, enabled, notices(records[k].id)))
      && (run.reached < |records| ==> !CanRecover(records[run.reached].task, enabled, notices(records[run.reached].id)))
    decreases |records| - i
  {
    if i < |records| && CanRecover(records[i].task, enabled, notices(records[i].id)) {
      var now := notices(records[i].id).now;
      CommitRecovers(before, db, enabled, dones[i], records[i].id, now);
      RunRecovers(before, Rewritten(db, enabled, records[i], now), enabled, records, notices, dones, i + 1);
    }
  }

  /** Every task in `done` could be written. */
  ghost predicate Writable(tasks: Tasks, enabled: bool, notices: TaskId -> Notice, done: set<TaskId>) {
    forall id :: id in done && id in tasks ==> CanRecover(tasks[id], enabled, notices(id))
  }

  lemma PageWritable(
    records: seq<Summary>, keys: seq<Key>, tasks: Tasks, enabled: bool, notices: TaskId -> Notice, done: set<TaskId>)
    requires Lists(records, keys, tasks, done) && Writable(tasks, enabled, notices, done)
    requires forall i :: 0 <= i < |records| ==> CanRecover(records[i].task, enabled, notices(records[i].id))
    ensures Writable(tasks, enabled, notices, done + KeyIds(keys))
  {
    forall id | id in KeyIds(keys) && id in tasks ensures CanRecover(tasks[id], enabled, notices(id)) {
      var k :| k in keys && k.id == id;
      var i :| 0 <= i < |keys| && keys[i] == k;
      assert records[i] == Summary(id, tasks[id]);
    }
  }

  lemma Unrecoverable(
    records: seq<Summary>, tasks: Tasks, enabled: bool, notices: TaskId -> Notice, dones: seq<set<TaskId>>, i: nat)
    requires Stages(dones, records, tasks) && i < |records|
    requires !CanRecover(records[i].task, enabled, notices(records[i].id))
    ensures !AllRecoverable(tasks, enabled, notices)
  {
    assert records[i].id in tasks;
  }

  /** What a page comes to: all of it recovered, or a task met that cannot be. */
  lemma PageOutcome(
    before: Db, db: Db, enabled: bool, records: seq<Summary>, keys: seq<Key>, notices: TaskId -> Notice, done: set<TaskId>)
    requires Lists(records, keys, before.tasks, done) && Recovering(before, db, enabled, done)
    requires Writable(before.tasks, enabled, notices, done)
    ensures var run := RunPage(db, enabled, records, notices, 0);
      && run.reached <= |records|
      && (run.reached == |records| ==>
            Recovering(before, run.db, enabled, done + KeyIds(keys))
            && Writable(before.tasks, enabled, notices, done + KeyIds(keys)))
      && (run.reached < |records| ==>
            PartlyRecovered(before, run.db, enabled) && !AllRecoverable(before.tasks, enabled, notices))
  {
    var run := RunPage(db, enabled, records, notices, 0);
    var dones := StagesOf(done, keys);
    PageStages(records, keys, before.tasks, done);
    RunRecovers(before, db, enabled, records, notices, dones, 0);
    if run.reached == |records| {
      PageWritable(records, keys, before.tasks, enabled, notices, done);
    } else {
      Unrecoverable(records, before.tasks, enabled, notices, dones, run.reached);
    }
  }

  // ---- the loops ----

  /** The listed tasks from `i` on are still as listed. */
  ghost predicate Current(tasks: Tasks, records: seq<Summary>, i: nat) {
    && (forall k :: 0 <= i <= k < |records| ==> records[k].id in tasks && tasks[records[k].id] == records[k].task)
    && (forall j, k :: 0 <= j < k < |records| ==> records[j].id != records[k].id)
  }

  lemma CurrentStep(db: Db, enabled: bool, records: seq<Summary>, i: nat, now: nat)
    requires i < |records| && Current(db.tasks, records, i)
    ensures records[i].id in db.tasks && db.tasks[records[i].id] == records[i].task
    ensures Current(Rewritten(db, enabled, records[i], now).tasks, records, i + 1)
  {
  }

  /** Recovers one listed task if it is running, or leaves everything as it is. */
  method RecoverOne(store: SqliteStore, summary: Summary, notice: Notice) returns (r: StoreResult<()>)
    requires store.Valid() && summary.id in store.View().tasks && store.View().tasks[summary.id] == summary.task
    modifies store
    ensures store.Valid() && store.outboxEnabled == old(store.outboxEnabled)
    ensures r.Ok? <==> CanRecover(summary.task, store.outboxEnabled, notice)
    ensures store.View() == if r.Ok? then Rewritten(old(store.View()), store.outboxEnabled, summary, notice.now)
                            else old(store.View())
  {
    if summary.task.life.state.Running? {
      if summary.task.life.stateVersion < U64_MAX {
        RecoverCommandSucceeds(summary.id, summary.task);
      }
      var written := store.TransitionEncoded(Lifecycle.RecoverCommand(summary.id, summary.task.life), notice);
      if written.Err? {
        return Err(written.error);
      }
    }
    r := Ok(());
  }

  /** Recovers the tasks of one page, in order, as far as they can be written. */
  method RecoverPage(store: SqliteStore, records: seq<Summary>, notices: TaskId -> Notice)
    returns (r: StoreResult<()>, reached: nat)
    requires store.Valid() && Current(store.View().tasks, records, 0)
    modifies store
    ensures store.Valid() && store.outboxEnabled == old(store.outboxEnabled)
    ensures Run(store.View(), reached) == RunPage(old(store.View()), store.outboxEnabled, records, notices, 0)
    ensures r.Ok? <==> reached == |records|
  {
    r, reached := Ok(()), 0;
    while reached < |records|
      invariant 0 <= reached <= |records| && r.Ok?
      invariant store.Valid() && store.outboxEnabled == old(store.outboxEnabled)
      invariant Current(store.View().tasks, records, reached)
      invariant RunPage(store.View(), store.outboxEnabled, records, notices, reached)
             == RunPage(old(store.View()), store.outboxEnabled, records, notices, 0)
    {
      CurrentStep(store.View(), store.outboxEnabled, records, reached, notices(records[reached].id).now);
      r := RecoverOne(store, records[reached], notices(records[reached].id));
      if r.Err? {
        return;
      }
      reached := reached + 1;
    }
  }

  lemma ListedAreCurrent(cur: Tasks, records: seq<Summary>, keys: seq<Key>, orig: Tasks, done: set<TaskId>)
    requires Lists(records, keys, orig, done) && RecoveredIn(orig, cur, done)
    ensures Current(cur, records, 0)
  {
  }

  /** Cursors taken from stored rows fit the signed column. */
  lemma CursorFits(rows: Rows, orig: Tasks, done: set<TaskId>, after: Option<Key>)
    requires RowsOk(rows) && RecoveredIn(orig, TasksOf(rows), done)
    ensures var next := PageOf(Unfinished(orig), after, RECOVERY_PAGE).next;
      next.Some? ==> next.value.at <= I64_MAX
  {
    PageSplits(Unfinished(orig), after, RECOVERY_PAGE);
    var next := PageOf(Unfinished(orig), after, RECOVERY_PAGE).next;
    if next.Some? {
      UnfinishedKey(orig, next.value);
      assert RowOk(rows[next.value.id]);
    }
  }

  lemma AllRecovered(before: Db, db: Db, enabled: bool, done: set<TaskId>)
    requires Recovering(before, db, enabled, done) && RunningIds(before.tasks) <= done
    ensures db.tasks == RecoveredTasks(before.tasks)
    ensures RestKept(before, db, enabled, before.tasks, RunningIds(before.tasks))
  {
  }

  /**
   What one round of the loop relies on: the listed page is the next page of the original
   tasks, each still unrecovered.
   */
  lemma RecoveryRound(rows: Rows, orig: Tasks, done: set<TaskId>, after: Option<Key>, page: Page)
    requires RowsOk(rows) && RecoveredIn(orig, TasksOf(rows), done) && DoneUpTo(orig, done, after)
    requires page == PageOf(Unfinished(orig), after, RECOVERY_PAGE)
    ensures PageOf(MatchingKeys(TasksOf(rows), RecoveryQuery(after)), after, RECOVERY_PAGE) == page
    ensures Retained(TasksOf(rows), page.keys) && Lists(ListingOf(TasksOf(rows), page).records, page.keys, orig, done)
    ensures page.next.Some? ==> DoneUpTo(orig, done + KeyIds(page.keys), page.next) && page.next.value.at <= I64_MAX
    ensures page.next.None? ==> RunningIds(orig) <= done + KeyIds(page.keys)
    ensures page.next.Some? ==> Remaining(Unfinished(orig), page.next) < Remaining(Unfinished(orig), after)
  {
    RemainingStable(orig, TasksOf(rows), done, after);
    PageAdvances(orig, done, after, page);
    PageSplits(Unfinished(orig), after, RECOVERY_PAGE);
    ListedOnce(orig, TasksOf(rows), done, after, page);
    CursorFits(rows, orig, done, after);
  }

  /**
   Recovery of the durable store terminates although it rewrites rows out of its own
   filter. It recovers every running task, announcing each in an enabled outbox, and
   leaves the archive and the checkpoints alone. It succeeds exactly if every running
   task can be written; if not, the tasks it reached are recovered and the others are
   as they were.
   */
  method RecoverUnfinished(store: SqliteStore, notices: TaskId -> Notice) returns (r: StoreResult<()>)
    requires store.Valid()
    modifies store
    ensures r.Ok? <==> AllRecoverable(old(store.View()).tasks, old(store.outboxEnabled), notices)
    ensures r.Ok? ==>
              && store.Valid() && store.outboxEnabled == old(store.outboxEnabled)
              && store.View().tasks == RecoveredTasks(old(store.View()).tasks)
              && RestKept(old(store.View()), store.View(), store.outboxEnabled, old(store.View()).tasks,
                          RunningIds(old(store.View()).tasks))
    ensures r.Err? ==>
              && store.Valid() && store.outboxEnabled == old(store.outboxEnabled)
              && PartlyRecovered(old(store.View()), store.View(), store.outboxEnabled)
  {
    ghost var before, enabled := store.View(), store.outboxEnabled;
    ghost var done: set<TaskId> := {};
    var after: Option<Key> := None;
    var more := true;
    while more
      invariant store.Valid() && store.outboxEnabled == enabled
      invariant Recovering(before, store.View(), enabled, done) && Writable(before.tasks, enabled, notices, done)
      invariant after.Some? ==> after.value.at <= I64_MAX
      invariant more ==> DoneUpTo(before.tasks, done, after)
      invariant !more ==> RunningIds(before.tasks) <= done
      decreases more, Remaining(Unfinished(before.tasks), after)
    {
      ghost var page := PageOf(Unfinished(before.tasks), after, RECOVERY_PAGE);
      RecoveryRound(store.rows, before.tasks, done, after, page);
      var listed := SqliteListings.ListEncoded(store.rows, RecoveryQuery(after));
      var listing := listed.value;
      PageOutcome(before, store.View(), enabled, listing.records, page.keys, notices, done);
      ListedAreCurrent(store.View().tasks, listing.records, page.keys, before.tasks, done);
      var reached;
      r, reached := RecoverPage(store, listing.records, notices);
      if r.Err? {
        return;
      }
      done := done + KeyIds(page.keys);
      after := listing.next;
      more := after.Some?;
    }
    AllRecovered(before, store.View(), enabled, done);
    r := Ok(());
  }
}
