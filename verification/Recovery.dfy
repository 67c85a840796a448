/**
 Crash recovery over the store: it pages through queued and running tasks and
 rewrites the running ones, which moves some of them out of its own filter.
 */
module Recovery {
  import opened TaskStates
  import opened TaskRecords
  import opened Keysets
  import opened MemoryAccounting
  import opened MemoryStores
  import Lifecycle

  const RECOVERY_PAGE := 128

  function RecoveryQuery(after: Option<Key>): Query {
    Query([QueuedKind, RunningKind], None, None, after, RECOVERY_PAGE)
  }

  /** The unfinished tasks recovery looks at. */
  function Unfinished(tasks: Tasks): set<Key> {
    MatchingKeys(tasks, RecoveryQuery(None))
  }

  function Recovered(id: TaskId, task: StoredTask): StoredTask {
    if task.life.state.Running?
    then task.(life := Transitioned(task.life, Lifecycle.RecoverCommand(id, task.life)))
    else task
  }

  function RecoveredTasks(tasks: Tasks): Tasks {
    map id | id in tasks :: Recovered(id, tasks[id])
  }

  /**
   What recovery achieves: nothing is running, an interrupted task without a
   cancellation request is queued again, one with a request is blocked and keeps
   it, and everything else is untouched.
   */
  lemma RecoveryMeaning(tasks: Tasks, id: TaskId)
    requires id in tasks
    ensures var before, after := tasks[id].life, RecoveredTasks(tasks)[id].life;
      && RecoveredTasks(tasks).Keys == tasks.Keys
      && RecoveredTasks(tasks)[id].request == tasks[id].request
      && !after.state.Running?
      && (before.state.Running? && !before.cancelRequested ==> after.state.Queued? && after.retryNotBefore == None)
      && (before.state.Running? && before.cancelRequested ==>
            after.state.Blocked? && after.cancelRequested && after.cancelError == before.cancelError)
      && (before.state.Running? ==> NextRevision(before, after) && after.attempt == before.attempt)
      && (!before.state.Running? ==> after == before)
  {
  }

  /** `cur` is `orig` with exactly the tasks in `done` recovered. */
  ghost predicate RecoveredIn(orig: Tasks, cur: Tasks, done: set<TaskId>) {
    && cur.Keys == orig.Keys
    && forall id :: id in orig ==> cur[id] == if id in done then Recovered(id, orig[id]) else orig[id]
  }

  /** Every running task up to the cursor is done, and nothing after it. */
  ghost predicate DoneUpTo(orig: Tasks, done: set<TaskId>, after: Option<Key>) {
    forall id :: id in orig ==> DoneAt(orig, done, after, id)
  }

  /** Rewriting tasks up to the cursor does not change what later pages will find. */
  lemma RemainingStable(orig: Tasks, cur: Tasks, done: set<TaskId>, after: Option<Key>)
    requires RecoveredIn(orig, cur, done) && DoneUpTo(orig, done, after)
    ensures MatchingKeys(cur, RecoveryQuery(after)) == MatchingKeys(cur, RecoveryQuery(None))
    ensures Remaining(Unfinished(cur), after) == Remaining(Unfinished(orig), after)
  {
    forall id | id in orig ensures KeyOf(cur, id) == KeyOf(orig, id) {
    }
    forall k ensures k in Remaining(Unfinished(cur), after) <==> k in Remaining(Unfinished(orig), after) {
      UnfinishedKey(cur, k);
      UnfinishedKey(orig, k);
      assert k.id in orig ==> DoneAt(orig, done, after, k.id);
    }
  }

  predicate DoneAt(orig: Tasks, done: set<TaskId>, after: Option<Key>, id: TaskId)
    requires id in orig
  {
    && (id in done ==> !After(after, KeyOf(orig, id)))
    && (orig[id].life.state.Running? && !After(after, KeyOf(orig, id)) ==> id in done)
  }

  lemma UnfinishedKey(tasks: Tasks, k: Key)
    ensures k in Unfinished(tasks) <==>
              k.id in tasks && (tasks[k.id].life.state.Queued? || tasks[k.id].life.state.Running?) && k == KeyOf(tasks, k.id)
  {
    var states := RecoveryQuery(None).states;
    assert states[0] == QueuedKind && states[1] == RunningKind;
    if k.id in tasks && k == KeyOf(tasks, k.id) {
      assert Matches(tasks[k.id], RecoveryQuery(None)) <==> tasks[k.id].life.state.Queued? || tasks[k.id].life.state.Running?;
    }
  }

  lemma PageAdvancesAt(orig: Tasks, done: set<TaskId>, after: Option<Key>, page: Page, id: TaskId)
    requires page == PageOf(Unfinished(orig), after, RECOVERY_PAGE)
    requires id in orig && DoneAt(orig, done, after, id)
    ensures page.next.Some? ==> DoneAt(orig, done + KeyIds(page.keys), page.next, id)
    ensures page.next.None? && orig[id].life.state.Running? ==> id in done + KeyIds(page.keys)
  {
    var key := KeyOf(orig, id);
    UnfinishedKey(orig, key);
    PageSplits(Unfinished(orig), after, RECOVERY_PAGE);
    assert key in page.keys ==> id in KeyIds(page.keys);
    if id in KeyIds(page.keys) {
      var k :| k in page.keys && k.id == id;
      UnfinishedKey(orig, k);
    }
  }

  /** Once a page is recovered, every running task up to its cursor is done; without a cursor, every one is. */
  lemma PageAdvances(orig: Tasks, done: set<TaskId>, after: Option<Key>, page: Page)
    requires page == PageOf(Unfinished(orig), after, RECOVERY_PAGE)
    requires DoneUpTo(orig, done, after)
    ensures page.next.Some? ==> DoneUpTo(orig, done + KeyIds(page.keys), page.next)
    ensures page.next.None? ==> forall id :: id in orig && orig[id].life.state.Running? ==> id in done + KeyIds(page.keys)
  {
    forall id | id in orig
      ensures page.next.Some? ==> DoneAt(orig, done + KeyIds(page.keys), page.next, id)
      ensures page.next.None? && orig[id].life.state.Running? ==> id in done + KeyIds(page.keys)
    {
      assert DoneAt(orig, done, after, id);
      PageAdvancesAt(orig, done, after, page, id);
    }
  }

  /** Recovers one listed task if it is running. */
  method RecoverOne(store: MemoryStore, summary: Summary) returns (r: StoreResult<()>)
    requires store.Valid() && summary.id in store.tasks && store.tasks[summary.id] == summary.task
    modifies store
    ensures summary.task.life.state.Running? && summary.task.life.stateVersion >= U64_MAX <==> r.Err?
    ensures r.Ok? ==>
              && store.Valid()
              && store.tasks == old(store.tasks)[summary.id := Recovered(summary.id, summary.task)]
  {
    if summary.task.life.state.Running? {
      var cmd := Lifecycle.RecoverCommand(summary.id, summary.task.life);
      var written := store.TransitionEncoded(cmd);
      if written.Err? {
        return Err(written.error);
      }
    } else {
      assert store.tasks == store.tasks[summary.id := summary.task];
    }
    r := Ok(());
  }

  /** The listed records are the tasks named by `keys`, each once, as they were before recovery. */
  ghost predicate Lists(records: seq<Summary>, keys: seq<Key>, orig: Tasks, done: set<TaskId>) {
    && |records| == |keys|
    && (forall i :: 0 <= i < |keys| ==>
          keys[i].id in orig && records[i] == Summary(keys[i].id, orig[keys[i].id]) && keys[i].id !in done)
    && (forall i, j :: 0 <= i < j < |keys| ==> keys[i].id != keys[j].id)
  }

  lemma RecoveredInStep(orig: Tasks, cur: Tasks, done: set<TaskId>, id: TaskId)
    requires RecoveredIn(orig, cur, done) && id in orig
    ensures RecoveredIn(orig, cur[id := Recovered(id, orig[id])], done + {id})
  {
  }

  /** Recovers the tasks of one page, in order. */
  method RecoverPage(store: MemoryStore, records: seq<Summary>, ghost keys: seq<Key>, ghost orig: Tasks, ghost done: set<TaskId>)
    returns (r: StoreResult<()>)
    requires store.Valid() && RecoveredIn(orig, store.tasks, done) && Lists(records, keys, orig, done)
    modifies store
    ensures r.Ok? ==> store.Valid() && RecoveredIn(orig, store.tasks, done + KeyIds(keys))
    ensures r.Err? ==> exists id :: id in orig && orig[id].life.state.Running? && orig[id].life.stateVersion >= U64_MAX
  {
    var i := 0;
    ghost var now := done;
    while i < |records|
      invariant 0 <= i <= |records|
      invariant store.Valid() && RecoveredIn(orig, store.tasks, now)
      invariant now == done + KeyIds(keys[..i])
    {
      KeyIdsSnoc(keys, i);
      assert keys[i].id !in KeyIds(keys[..i]);
      RecoveredInStep(orig, store.tasks, now, keys[i].id);
      r := RecoverOne(store, records[i]);
      if r.Err? {
        return;
      }
      now := now + {keys[i].id};
      i := i + 1;
    }
    assert keys[..i] == keys;
    r := Ok(());
  }

  /**
   Recovery terminates although it rewrites rows out of its own filter, and
   recovers every running task, unless a running task's version has reached
   its maximum.
   */
  method RecoverUnfinished(store: MemoryStore) returns (r: StoreResult<()>)
    requires store.Valid()
    modifies store
    ensures (forall id :: id in old(store.tasks) && old(store.tasks)[id].life.state.Running? ==>
               old(store.tasks)[id].life.stateVersion < U64_MAX) ==> r.Ok?
    ensures r.Ok? ==> store.Valid() && store.tasks == RecoveredTasks(old(store.tasks))
  {
    ghost var orig := store.tasks;
    ghost var done: set<TaskId> := {};
    var after: Option<Key> := None;
    var more := true;
    while more
      invariant store.Valid() && RecoveredIn(orig, store.tasks, done)
      invariant more ==> DoneUpTo(orig, done, after)
      invariant !more ==> forall id :: id in orig && orig[id].life.state.Running? ==> id in done
      decreases more, Remaining(Unfinished(orig), after)
    {
      RemainingStable(orig, store.tasks, done, after);
      ghost var page := PageOf(Unfinished(orig), after, RECOVERY_PAGE);
      PageAdvances(orig, done, after, page);
      PageSplits(Unfinished(orig), after, RECOVERY_PAGE);
      var listed := store.ListEncoded(RecoveryQuery(after));
      var listing := listed.value;
      ListedOnce(orig, store.tasks, done, after, page);
      r := RecoverPage(store, listing.records, page.keys, orig, done);
      if r.Err? {
        return;
      }
      done := done + KeyIds(page.keys);
      after := listing.next;
      more := after.Some?;
    }
    r := Ok(());
  }

  lemma ListedOnce(orig: Tasks, cur: Tasks, done: set<TaskId>, after: Option<Key>, page: Page)
    requires page == PageOf(Unfinished(orig), after, RECOVERY_PAGE)
    requires RecoveredIn(orig, cur, done) && DoneUpTo(orig, done, after)
    ensures Retained(cur, page.keys) && Lists(ListingOf(cur, page).records, page.keys, orig, done)
  {
    PageSplits(Unfinished(orig), after, RECOVERY_PAGE);
    forall i | 0 <= i < |page.keys|
      ensures page.keys[i].id in orig && page.keys[i] == KeyOf(orig, page.keys[i].id) && page.keys[i].id !in done
    {
      assert page.keys[i] in page.keys;
      UnfinishedKey(orig, page.keys[i]);
      assert DoneAt(orig, done, after, page.keys[i].id);
    }
  }
}
