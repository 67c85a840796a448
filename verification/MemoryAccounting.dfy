/** Quantities a bounded store derives from its records, and how they change. */
module MemoryAccounting {
  import opened TaskStates
  import opened TaskRecords

  type Tasks = map<TaskId, StoredTask>

  function Size(task: StoredTask): nat {
    |task.request.payload|
  }

  /** Payload bytes held by all records. */
  ghost function Bytes(tasks: Tasks): nat
    decreases |tasks|
  {
    if tasks == map[] then 0
    else
      var id :| id in tasks;
      Size(tasks[id]) + Bytes(tasks - {id})
  }

  ghost function UnfinishedIds(tasks: Tasks): set<TaskId> {
    set id | id in tasks && !tasks[id].life.state.IsTerminal()
  }

  ghost function TerminalIds(tasks: Tasks): set<TaskId> {
    set id | id in tasks && tasks[id].life.state.IsTerminal()
  }

  /** Bytes that no eviction can reclaim. */
  ghost function LiveBytes(tasks: Tasks): nat {
    Bytes(tasks - TerminalIds(tasks))
  }

  function Ids(order: seq<TaskId>): set<TaskId> {
    set id | id in order
  }

  /** Payload bytes of the records named by `order`. */
  ghost function SeqBytes(tasks: Tasks, order: seq<TaskId>): nat
    requires Ids(order) <= tasks.Keys
  {
    if order == [] then 0
    else
      assert order[0] in Ids(order) && Ids(order[1..]) <= Ids(order);
      Size(tasks[order[0]]) + SeqBytes(tasks, order[1..])
  }

  lemma {:induction false} BytesRemove(tasks: Tasks, id: TaskId)
    requires id in tasks
    ensures Bytes(tasks) == Size(tasks[id]) + Bytes(tasks - {id})
    decreases |tasks|
  {
    var pick :| pick in tasks && Bytes(tasks) == Size(tasks[pick]) + Bytes(tasks - {pick});
    if pick != id {
      BytesRemove(tasks - {pick}, id);
      BytesRemove(tasks - {id}, pick);
      assert tasks - {pick} - {id} == tasks - {id} - {pick};
    }
  }

  lemma BytesUpdate(tasks: Tasks, id: TaskId, task: StoredTask)
    ensures Bytes(tasks[id := task]) == Bytes(tasks - {id}) + Size(task)
    ensures id in tasks ==> Bytes(tasks[id := task]) == Bytes(tasks) - Size(tasks[id]) + Size(task)
    ensures id !in tasks ==> Bytes(tasks[id := task]) == Bytes(tasks) + Size(task)
  {
    BytesRemove(tasks[id := task], id);
    assert tasks[id := task] - {id} == tasks - {id};
    if id in tasks {
      BytesRemove(tasks, id);
    } else {
      assert tasks - {id} == tasks;
    }
  }

  /** Removing distinct records removes exactly their bytes. */
  lemma {:induction false} BytesRemoveAll(tasks: Tasks, order: seq<TaskId>)
    requires NoDuplicates(order) && Ids(order) <= tasks.Keys
    ensures Bytes(tasks) == SeqBytes(tasks, order) + Bytes(tasks - Ids(order))
    decreases |order|
  {
    if order == [] {
      assert tasks - Ids(order) == tasks;
    } else {
      var id, rest := order[0], order[1..];
      assert id in Ids(order) && id !in rest;
      assert Ids(order) == {id} + Ids(rest);
      BytesRemoveAll(tasks - {id}, rest);
      BytesRemove(tasks, id);
      SeqBytesFrame(tasks, tasks - {id}, rest);
      assert tasks - Ids(order) == (tasks - {id}) - Ids(rest);
    }
  }

  lemma {:induction false} SeqBytesFrame(a: Tasks, b: Tasks, order: seq<TaskId>)
    requires Ids(order) <= a.Keys && Ids(order) <= b.Keys
    requires forall id :: id in order ==> Size(a[id]) == Size(b[id])
    ensures SeqBytes(a, order) == SeqBytes(b, order)
  {
    if order != [] {
      assert order[0] in Ids(order) && Ids(order[1..]) <= Ids(order);
      SeqBytesFrame(a, b, order[1..]);
    }
  }

  /** Payload lengths of the named records, added up. */
  function PayloadSum(tasks: Tasks, order: seq<TaskId>): nat
    requires forall id :: id in order ==> id in tasks
  {
    if order == [] then 0 else |tasks[order[0]].request.payload| + PayloadSum(tasks, order[1..])
  }

  lemma {:induction false} SeqBytesIsPayloadSum(tasks: Tasks, order: seq<TaskId>)
    requires Ids(order) <= tasks.Keys
    ensures forall id :: id in order ==> id in Ids(order)
    ensures SeqBytes(tasks, order) == PayloadSum(tasks, order)
  {
    if order != [] {
      assert order[0] in Ids(order) && Ids(order[1..]) <= Ids(order);
      SeqBytesIsPayloadSum(tasks, order[1..]);
    }
  }

  /** A new record adds exactly its payload length, and an empty store holds nothing. */
  lemma BytesInsert(tasks: Tasks, id: TaskId, task: StoredTask)
    requires id !in tasks
    ensures Bytes(map[]) == 0
    ensures Bytes(tasks[id := task]) == Bytes(tasks) + |task.request.payload|
  {
    BytesUpdate(tasks, id, task);
  }

  /** The bytes held are at least the payload lengths of any distinct records, and exactly those of all of them. */
  lemma BytesCountPayloads(tasks: Tasks, order: seq<TaskId>)
    requires NoDuplicates(order) && Ids(order) <= tasks.Keys
    ensures forall id :: id in order ==> id in Ids(order)
    ensures PayloadSum(tasks, order) <= Bytes(tasks)
    ensures Ids(order) == tasks.Keys ==> PayloadSum(tasks, order) == Bytes(tasks)
  {
    BytesRemoveAll(tasks, order);
    SeqBytesIsPayloadSum(tasks, order);
    if Ids(order) == tasks.Keys {
      assert tasks - Ids(order) == map[];
    }
  }

  /** Live bytes are the payload lengths of the unfinished records. */
  lemma LiveBytesCountPayloads(tasks: Tasks, order: seq<TaskId>)
    requires NoDuplicates(order) && Ids(order) == UnfinishedIds(tasks)
    ensures forall id :: id in order ==> id in Ids(order)
    ensures PayloadSum(tasks, order) == LiveBytes(tasks)
  {
    var live := tasks - TerminalIds(tasks);
    assert live.Keys == UnfinishedIds(tasks);
    BytesCountPayloads(live, order);
    PayloadSumFrame(live, tasks, order);
  }

  lemma {:induction false} PayloadSumFrame(a: Tasks, b: Tasks, order: seq<TaskId>)
    requires forall id :: id in order ==> id in a && id in b && a[id] == b[id]
    ensures PayloadSum(a, order) == PayloadSum(b, order)
  {
    if order != [] {
      assert forall id :: id in order[1..] ==> id in order;
      PayloadSumFrame(a, b, order[1..]);
    }
  }

  /** The eviction queue without `id`, in the same order. */
  function Without(order: seq<TaskId>, id: TaskId): (r: seq<TaskId>)
    ensures forall x :: x in r <==> x in order && x != id
    ensures NoDuplicates(order) ==> NoDuplicates(r)
    ensures id !in order ==> r == order
    ensures |r| <= |order|
  {
    if order == [] then []
    else if order[0] == id then Without(order[1..], id)
    else
      var rest := Without(order[1..], id);
      assert NoDuplicates(order) ==> NoDuplicates(order[1..]) && order[0] !in order[1..];
      assert order[0] !in order[1..] ==> order[0] !in rest;
      [order[0]] + rest
  }

  /** The eviction queue without all of `gone`, in the same order. */
  function Kept(order: seq<TaskId>, gone: set<TaskId>): seq<TaskId> {
    if order == [] then []
    else if order[0] in gone then Kept(order[1..], gone)
    else [order[0]] + Kept(order[1..], gone)
  }

  lemma {:induction false} KeptAll(order: seq<TaskId>)
    ensures Kept(order, {}) == order
  {
    if order != [] {
      KeptAll(order[1..]);
    }
  }

  lemma {:induction false} KeptStep(order: seq<TaskId>, gone: set<TaskId>, id: TaskId)
    ensures Without(Kept(order, gone), id) == Kept(order, gone + {id})
  {
    if order != [] {
      KeptStep(order[1..], gone, id);
      var rest := Kept(order[1..], gone);
      if order[0] !in gone {
        assert ([order[0]] + rest)[1..] == rest;
      }
    }
  }

  // ---- the indexes and counters of a store ----

  type Index = map<string, TaskId>

  ghost predicate Indexed(tasks: Tasks, index: Index) {
    && (forall key :: key in index ==>
          index[key] in tasks && tasks[index[key]].request.idempotencyKey == Some(key))
    && (forall id :: id in tasks && tasks[id].request.idempotencyKey.Some? ==>
          tasks[id].request.idempotencyKey.value in index && index[tasks[id].request.idempotencyKey.value] == id)
  }

  /** Every index and counter is the one derived from the records. */
  ghost predicate Accounts(tasks: Tasks, index: Index, order: seq<TaskId>, bytes: nat, unfinished: nat) {
    && bytes == Bytes(tasks)
    && unfinished == |UnfinishedIds(tasks)|
    && NoDuplicates(order)
    && Ids(order) == TerminalIds(tasks)
    && Indexed(tasks, index)
  }

  lemma IndexedInsert(tasks: Tasks, index: Index, id: TaskId, task: StoredTask)
    requires Indexed(tasks, index) && id !in tasks
    requires task.request.idempotencyKey.Some? ==> task.request.idempotencyKey.value !in index
    ensures Indexed(tasks[id := task],
                    if task.request.idempotencyKey.Some? then index[task.request.idempotencyKey.value := id] else index)
  {
  }

  lemma IndexedRewrite(tasks: Tasks, index: Index, id: TaskId, life: Lifecycle)
    requires Indexed(tasks, index) && id in tasks
    ensures Indexed(tasks[id := tasks[id].(life := life)], index)
  {
    var next := tasks[id := tasks[id].(life := life)];
    assert forall x :: x in tasks ==> next[x].request == tasks[x].request;
  }

  lemma IndexedRemove(tasks: Tasks, index: Index, id: TaskId)
    requires Indexed(tasks, index) && id in tasks
    ensures Indexed(
              tasks - {id},
              if tasks[id].request.idempotencyKey.Some? then index - {tasks[id].request.idempotencyKey.value} else index)
  {
  }

  /** The eviction queue and the unfinished count when one lifecycle is rewritten. */
  lemma QueueRewrite(tasks: Tasks, order: seq<TaskId>, id: TaskId, task: StoredTask)
    requires NoDuplicates(order) && Ids(order) == TerminalIds(tasks) && id in tasks
    requires tasks[id].life.state.IsTerminal() ==> task.life.state.IsTerminal()
    ensures var ends := !tasks[id].life.state.IsTerminal() && task.life.state.IsTerminal();
      var order' := if ends then order + [id] else order;
      && (ends ==> |UnfinishedIds(tasks)| > 0 && id !in order)
      && NoDuplicates(order') && Ids(order') == TerminalIds(tasks[id := task])
      && |UnfinishedIds(tasks[id := task])| == |UnfinishedIds(tasks)| - if ends then 1 else 0
  {
    if !tasks[id].life.state.IsTerminal() && task.life.state.IsTerminal() {
      assert id in UnfinishedIds(tasks) && id !in TerminalIds(tasks);
      assert id !in Ids(order);
      assert UnfinishedIds(tasks[id := task]) == UnfinishedIds(tasks) - {id};
      assert TerminalIds(tasks[id := task]) == TerminalIds(tasks) + {id};
      assert Ids(order + [id]) == Ids(order) + {id};
    } else {
      assert UnfinishedIds(tasks[id := task]) == UnfinishedIds(tasks);
      assert TerminalIds(tasks[id := task]) == TerminalIds(tasks);
    }
  }

  lemma AccountsRemove(tasks: Tasks, index: Index, order: seq<TaskId>, bytes: nat, unfinished: nat, id: TaskId)
    requires Accounts(tasks, index, order, bytes, unfinished) && id in tasks
    ensures Size(tasks[id]) <= bytes
    ensures !tasks[id].life.state.IsTerminal() ==> unfinished > 0
    ensures Accounts(
              tasks - {id},
              if tasks[id].request.idempotencyKey.Some? then index - {tasks[id].request.idempotencyKey.value} else index,
              Without(order, id),
              bytes - Size(tasks[id]),
              if tasks[id].life.state.IsTerminal() then unfinished else unfinished - 1)
  {
    BytesRemove(tasks, id);
    IndexedRemove(tasks, index, id);
    assert UnfinishedIds(tasks - {id}) == UnfinishedIds(tasks) - {id};
    assert !tasks[id].life.state.IsTerminal() ==> id in UnfinishedIds(tasks);
    assert TerminalIds(tasks - {id}) == TerminalIds(tasks) - {id};
    forall x ensures x in Ids(Without(order, id)) <==> x in Ids(order) - {id} {
    }
  }

  lemma AccountsInsert(tasks: Tasks, index: Index, order: seq<TaskId>, bytes: nat, unfinished: nat, id: TaskId, task: StoredTask)
    requires Accounts(tasks, index, order, bytes, unfinished) && id !in tasks && !task.life.state.IsTerminal()
    requires task.request.idempotencyKey.Some? ==> task.request.idempotencyKey.value !in index
    ensures Accounts(
              tasks[id := task],
              if task.request.idempotencyKey.Some? then index[task.request.idempotencyKey.value := id] else index,
              order, bytes + Size(task), unfinished + 1)
  {
    BytesUpdate(tasks, id, task);
    IndexedInsert(tasks, index, id, task);
    assert UnfinishedIds(tasks[id := task]) == UnfinishedIds(tasks) + {id};
    assert TerminalIds(tasks[id := task]) == TerminalIds(tasks);
  }

  /** Rewriting the lifecycle of one record; a task that ends joins the eviction queue. */
  lemma AccountsRewrite(tasks: Tasks, index: Index, order: seq<TaskId>, bytes: nat, unfinished: nat, id: TaskId, life: Lifecycle)
    requires Accounts(tasks, index, order, bytes, unfinished) && id in tasks
    requires tasks[id].life.state.IsTerminal() ==> life.state.IsTerminal()
    ensures var ends := !tasks[id].life.state.IsTerminal() && life.state.IsTerminal();
      && (ends ==> unfinished > 0 && id !in order)
      && Accounts(tasks[id := tasks[id].(life := life)], index,
                  if ends then order + [id] else order, bytes, if ends then unfinished - 1 else unfinished)
  {
    var task := tasks[id].(life := life);
    BytesUpdate(tasks, id, task);
    IndexedRewrite(tasks, index, id, life);
    QueueRewrite(tasks, order, id, task);
  }

  /**
   Rewriting a lifecycle without touching queue or count keeps the books exactly if it
   neither ends nor revives the task.
   */
  lemma HalfWriteAccounts(
    tasks: Tasks, index: Index, order: seq<TaskId>, bytes: nat, unfinished: nat, id: TaskId, life: Lifecycle)
    requires Accounts(tasks, index, order, bytes, unfinished) && id in tasks
    requires tasks[id].life.state.IsTerminal() ==> life.state.IsTerminal()
    ensures Accounts(tasks[id := tasks[id].(life := life)], index, order, bytes, unfinished)
       <==> (tasks[id].life.state.IsTerminal() <==> life.state.IsTerminal())
  {
    AccountsRewrite(tasks, index, order, bytes, unfinished, id, life);
  }

  /** Evicting terminal tasks leaves the live ones alone. */
  lemma EvictionKeepsLive(tasks: Tasks, gone: set<TaskId>)
    requires gone <= TerminalIds(tasks)
    ensures LiveBytes(tasks - gone) == LiveBytes(tasks)
    ensures UnfinishedIds(tasks - gone) == UnfinishedIds(tasks)
  {
    assert (tasks - gone) - TerminalIds(tasks - gone) == tasks - TerminalIds(tasks);
  }

  /** The records left after evicting the first `n` tasks of the queue. */
  ghost function Evicted(tasks: Tasks, order: seq<TaskId>, n: nat): Tasks
    requires n <= |order|
  {
    tasks - Ids(order[..n])
  }

  lemma EvictedStep(tasks: Tasks, order: seq<TaskId>, n: nat)
    requires n < |order|
    ensures Evicted(tasks, order, 0) == tasks
    ensures Evicted(tasks, order, n + 1) == Evicted(tasks, order, n) - {order[n]}
  {
    assert order[..n + 1] == order[..n] + [order[n]];
    assert Ids(order[..n + 1]) == Ids(order[..n]) + {order[n]};
    assert tasks - Ids(order[..0]) == tasks;
  }

  /** With an empty eviction queue only live bytes are left. */
  lemma NothingToEvict(tasks: Tasks)
    requires TerminalIds(tasks) == {}
    ensures LiveBytes(tasks) == Bytes(tasks)
  {
    assert tasks - TerminalIds(tasks) == tasks;
  }
}
