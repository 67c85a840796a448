/** What a bounded prune of terminal tasks promises, whichever store does it. */
module Retention {
  import opened TaskStates
  import opened TaskRecords
  import opened Keysets
  import opened MemoryAccounting

  /** Terminal, finished before the cutoff, and not owing a notification. */
  predicate Expired(tasks: Tasks, owing: set<TaskId>, cutoff: nat, id: TaskId) {
    && id in tasks && id !in owing && tasks[id].life.state.IsTerminal()
    && tasks[id].life.finishedAt.Some? && tasks[id].life.finishedAt.value < cutoff
  }

  /** `a` finished earlier than `b`, or at the same time with a smaller id. */
  predicate FinishedFirst(tasks: Tasks, a: TaskId, b: TaskId)
    requires a in tasks && b in tasks && tasks[a].life.finishedAt.Some? && tasks[b].life.finishedAt.Some?
  {
    var x, y := tasks[a].life.finishedAt.value, tasks[b].life.finishedAt.value;
    x < y || (x == y && a < b)
  }

  /**
   `after` is `before` without `count` expired tasks and otherwise unchanged. The
   removed ones finished before every expired task that stays, and one stays only
   if the limit is used up.
   */
  ghost predicate PrunesOldest(before: Tasks, after: Tasks, owing: set<TaskId>, cutoff: nat, maxRows: nat, count: nat) {
    && after.Keys <= before.Keys && (forall id :: id in after ==> after[id] == before[id])
    && |before.Keys - after.Keys| == count <= maxRows
    && (forall id :: id in before && id !in after ==> Expired(before, owing, cutoff, id))
    && (forall a, b :: a in before && a !in after && b in after && Expired(before, owing, cutoff, b) ==>
          FinishedFirst(before, a, b))
    && (count < maxRows ==> forall id :: id in after ==> !Expired(before, owing, cutoff, id))
  }

  /** Keys of exactly the expired tasks, by finish time. */
  ghost predicate KeysExpired(keys: set<Key>, tasks: Tasks, owing: set<TaskId>, cutoff: nat) {
    && (forall k :: k in keys ==> Expired(tasks, owing, cutoff, k.id) && k.at == tasks[k.id].life.finishedAt.value)
    && (forall id :: Expired(tasks, owing, cutoff, id) ==> Key(tasks[id].life.finishedAt.value, id) in keys)
  }

  lemma {:induction false} DistinctIds(keys: seq<Key>)
    requires forall i, j :: 0 <= i < j < |keys| ==> keys[i].id != keys[j].id
    ensures |KeyIds(keys)| == |keys|
  {
    if keys != [] {
      var init := keys[..|keys| - 1];
      DistinctIds(init);
      KeyIdsSnoc(keys, |keys| - 1);
      assert keys[..|keys|] == keys;
      assert forall k :: k in init ==> k.id != keys[|keys| - 1].id;
    }
  }

  lemma PrefixFirst(sorted: seq<Key>, n: nat, a: Key, b: Key)
    requires StrictlySorted(sorted) && n <= |sorted| && a in sorted[..n] && b in sorted && b !in sorted[..n]
    ensures Less(a, b)
  {
    var i :| 0 <= i < n && sorted[..n][i] == a;
    var j :| 0 <= j < |sorted| && sorted[j] == b;
  }

  /** Taking the first keys in order prunes the oldest expired tasks. */
  lemma TakingPrunesOldest(keys: set<Key>, tasks: Tasks, owing: set<TaskId>, cutoff: nat, maxRows: nat)
    requires KeysExpired(keys, tasks, owing, cutoff)
    ensures var taken := TakeKeys(SortKeys(keys), maxRows);
      PrunesOldest(tasks, tasks - KeyIds(taken), owing, cutoff, maxRows, |taken|)
  {
    var taken := TakeKeys(SortKeys(keys), maxRows);
    var after := tasks - KeyIds(taken);
    assert forall k :: k in taken ==> k in keys;
    assert tasks.Keys - after.Keys == KeyIds(taken);
    forall i, j | 0 <= i < j < |taken| ensures taken[i].id != taken[j].id {
      assert taken[i] in keys && taken[j] in keys && Less(SortKeys(keys)[i], SortKeys(keys)[j]);
    }
    DistinctIds(taken);
    forall id | id in tasks && id !in after ensures Expired(tasks, owing, cutoff, id) {
      var k :| k in taken && k.id == id;
    }
    forall a, b | a in tasks && a !in after && b in after && Expired(tasks, owing, cutoff, b)
      ensures FinishedFirst(tasks, a, b)
    {
      var k :| k in taken && k.id == a;
      var other := Key(tasks[b].life.finishedAt.value, b);
      assert taken == SortKeys(keys)[..|taken|] && other in keys && other !in taken;
      PrefixFirst(SortKeys(keys), |taken|, k, other);
    }
    if |taken| < maxRows {
      assert taken == SortKeys(keys) && forall k :: k in keys ==> k.id !in after;
    }
  }
}
