/**
 The volatile store. Besides the records it keeps an idempotency index, the queue
 of terminal tasks in eviction order, the retained payload bytes and the number
 of unfinished records; `Accounted` says these are exactly what the records imply.
 */
module MemoryStores {
  import opened TaskStates
  import opened TaskRecords
  import opened Keysets
  import opened MemoryAccounting
  import Retention

  const MAX_QUERY_LIMIT := 256

  datatype AcceptOutcome = AcceptOutcome(id: TaskId, life: Lifecycle, created: bool)

  datatype Query = Query(
    states: seq<TaskStateKind>,
    category: Option<string>,
    correlationKey: Option<string>,
    after: Option<Key>,
    limit: nat)

  datatype Summary = Summary(id: TaskId, task: StoredTask)

  datatype Listing = Listing(records: seq<Summary>, next: Option<Key>)

  // ---- what requests and queries mean on the bare records ----

  ghost predicate HoldsKey(tasks: Tasks, id: TaskId, request: Request) {
    request.idempotencyKey.Some? && id in tasks && tasks[id].request.idempotencyKey == request.idempotencyKey
  }

  /** The outcome of an accept, in terms of the records alone. */
  ghost predicate AcceptVerdict(
    tasks: Tasks, maxUnfinished: nat, maxBytes: nat, id: TaskId, request: Request, now: nat, r: StoreResult<AcceptOutcome>)
  {
    if request.kindId == "" || request.codecId == "" then r == Err(InvalidRequest)
    else if exists holder :: HoldsKey(tasks, holder, request) then
      forall holder :: HoldsKey(tasks, holder, request) ==>
        r == if tasks[holder].request == request then Ok(AcceptOutcome(holder, tasks[holder].life, false))
             else Err(IdempotencyConflict)
    else if id in tasks then r == Err(DuplicateTask)
    else if |UnfinishedIds(tasks)| >= maxUnfinished then r == Err(UnfinishedLimitExceeded(maxUnfinished))
    else if LiveBytes(tasks) + |request.payload| > maxBytes then
      r == Err(CapacityExceeded(|request.payload|, SaturatingSub(maxBytes, LiveBytes(tasks))))
    else r == Ok(AcceptOutcome(id, Accepted(now), true))
  }

  /**
   The limits, in tasks and payload lengths: a well-formed new task is refused exactly if
   as many tasks as allowed are unfinished, or else if their payloads and the new one
   together exceed the byte limit; nothing else is refused for these reasons.
   */
  lemma CapacityRefusedIff(
    tasks: Tasks, maxUnfinished: nat, maxBytes: nat, id: TaskId, request: Request, now: nat, r: StoreResult<AcceptOutcome>,
    unfinished: seq<TaskId>)
    requires AcceptVerdict(tasks, maxUnfinished, maxBytes, id, request, now, r)
    requires NoDuplicates(unfinished) && forall x :: x in unfinished <==> x in tasks && !tasks[x].life.state.IsTerminal()
    ensures var isNew := && request.kindId != "" && request.codecId != "" && id !in tasks
                         && forall holder :: !HoldsKey(tasks, holder, request);
      && (r.Err? && r.error.UnfinishedLimitExceeded? <==> isNew && |unfinished| >= maxUnfinished)
      && (r.Err? && r.error.CapacityExceeded? <==>
            isNew && |unfinished| < maxUnfinished && PayloadSum(tasks, unfinished) + |request.payload| > maxBytes)
  {
    assert Ids(unfinished) == UnfinishedIds(tasks);
    LiveBytesCountPayloads(tasks, unfinished);
    DistinctCount(unfinished);
  }

  lemma {:induction false} DistinctCount(order: seq<TaskId>)
    requires NoDuplicates(order)
    ensures |Ids(order)| == |order|
  {
    if order != [] {
      DistinctCount(order[1..]);
      assert order[0] !in order[1..];
      assert Ids(order) == {order[0]} + Ids(order[1..]);
    }
  }

  predicate Matches(task: StoredTask, q: Query) {
    && (q.states == [] || task.life.state.Kind() in q.states)
    && (q.category.Some? ==> task.request.category == q.category)
    && (q.correlationKey.Some? ==> task.request.correlationKey == q.correlationKey)
  }

  function KeyOf(tasks: Tasks, id: TaskId): Key
    requires id in tasks
  {
    Key(tasks[id].life.acceptedAt, id)
  }

  function MatchingKeys(tasks: Tasks, q: Query): set<Key> {
    set id | id in tasks && Matches(tasks[id], q) :: KeyOf(tasks, id)
  }

  predicate IsReady(task: StoredTask, now: nat) {
    task.life.state.Queued? && (task.life.retryNotBefore.Some? ==> task.life.retryNotBefore.value <= now)
  }

  function ReadyKeys(tasks: Tasks, now: nat): set<Key> {
    set id | id in tasks && IsReady(tasks[id], now) :: KeyOf(tasks, id)
  }

  predicate Retained(tasks: Tasks, keys: seq<Key>) {
    forall i :: 0 <= i < |keys| ==> keys[i].id in tasks && keys[i] == KeyOf(tasks, keys[i].id)
  }

  /** A page of keys together with the records they name. */
  function ListingOf(tasks: Tasks, page: Page): Listing
    requires Retained(tasks, page.keys)
  {
    Listing(seq(|page.keys|, i requires 0 <= i < |page.keys| =>
                  Summary(page.keys[i].id, tasks[page.keys[i].id])), page.next)
  }

  lemma PageRetained(tasks: Tasks, matching: set<Key>, after: Option<Key>, limit: nat)
    requires limit >= 1
    requires forall k :: k in matching ==> k.id in tasks && k == KeyOf(tasks, k.id)
    ensures Retained(tasks, PageOf(matching, after, limit).keys)
  {
    PageSplits(matching, after, limit);
    var keys := PageOf(matching, after, limit).keys;
    forall i | 0 <= i < |keys| ensures keys[i].id in tasks && keys[i] == KeyOf(tasks, keys[i].id) {
      assert keys[i] in keys;
    }
  }

  /** `low` is the `fetch` smallest keys of `all`, or everything when there are fewer. */
  ghost predicate IsSmallest(low: set<Key>, all: set<Key>, fetch: nat) {
    && low <= all
    && |low| <= fetch
    && (|low| < fetch ==> low == all)
    && (forall a, b :: a in low && b in all - low ==> Less(a, b))
  }

  lemma SmallestSortFirst(low: set<Key>, all: set<Key>, fetch: nat)
    requires IsSmallest(low, all, fetch)
    ensures SortKeys(all) == SortKeys(low) + SortKeys(all - low)
  {
    assert low + (all - low) == all;
    SortSplits(low, all - low);
  }

  /** The `limit + 1` smallest keys, sorted and truncated, give the page of all keys. */
  lemma SmallestGivePage(low: set<Key>, all: set<Key>, limit: nat)
    requires limit >= 1 && IsSmallest(low, all, limit + 1)
    ensures PageFrom(SortKeys(all), limit) == PageFrom(SortKeys(low), limit)
  {
    SmallestSortFirst(low, all, limit + 1);
    var first, rest := SortKeys(low), SortKeys(all - low);
    if |low| == limit + 1 {
      assert |first| == limit + 1;
      LookaheadSuffices(first, rest, limit);
    }
  }

  lemma LookaheadSuffices(low: seq<Key>, high: seq<Key>, limit: nat)
    requires limit >= 1 && |low| == limit + 1
    ensures PageFrom(low + high, limit) == PageFrom(low, limit)
  {
    assert (low + high)[..limit] == low[..limit];
  }

  /** What one step of the bounded heap keeps. */
  function HeapPush(heap: set<Key>, key: Key, fetch: nat): set<Key>
    requires fetch > 0
  {
    if |heap| < fetch then heap + {key}
    else if Less(key, Greatest(heap)) then heap - {Greatest(heap)} + {key}
    else heap
  }

  lemma HeapReplaceSmallest(heap: set<Key>, seen: set<Key>, key: Key, fetch: nat)
    requires fetch > 0 && IsSmallest(heap, seen, fetch) && key !in seen && |heap| == fetch && Less(key, Greatest(heap))
    ensures IsSmallest(heap - {Greatest(heap)} + {key}, seen + {key}, fetch)
  {
    var top := Greatest(heap);
    var next := heap - {top} + {key};
    forall a, b | a in next && b in (seen + {key}) - next ensures Less(a, b) {
      assert a == key || (a in heap && a != top);
      assert b == top || (b in seen - heap && Less(top, b));
    }
  }

  lemma HeapSkipSmallest(heap: set<Key>, seen: set<Key>, key: Key, fetch: nat)
    requires fetch > 0 && IsSmallest(heap, seen, fetch) && key !in seen && |heap| == fetch && !Less(key, Greatest(heap))
    ensures IsSmallest(heap, seen + {key}, fetch)
  {
    forall a, b | a in heap && b in (seen + {key}) - heap ensures Less(a, b) {
      assert b == key || b in seen - heap;
    }
  }

  lemma HeapPushSmallest(heap: set<Key>, seen: set<Key>, key: Key, fetch: nat)
    requires fetch > 0 && IsSmallest(heap, seen, fetch) && key !in seen
    ensures IsSmallest(HeapPush(heap, key, fetch), seen + {key}, fetch)
  {
    if |heap| == fetch {
      if Less(key, Greatest(heap)) {
        HeapReplaceSmallest(heap, seen, key, fetch);
      } else {
        HeapSkipSmallest(heap, seen, key, fetch);
      }
    }
  }

  /** A page holds at least one task and otherwise what was asked for. */
  function PageSize(q: Query): (n: nat)
    ensures n >= 1 && n >= q.limit && (q.limit >= 1 ==> n == q.limit)
  {
    if q.limit == 0 then 1 else q.limit
  }

  /** Terminal tasks finished before the cutoff, keyed by finish time. */
  function ExpiredKeys(tasks: Tasks, cutoff: nat): set<Key> {
    set id | id in tasks && tasks[id].life.state.IsTerminal()
             && tasks[id].life.finishedAt.Some? && tasks[id].life.finishedAt.value < cutoff
           :: Key(tasks[id].life.finishedAt.value, id)
  }

  class MemoryStore {
    const historyCapacity: nat
    const maxPayloadBytes: nat
    const maxUnfinished: nat
    var tasks: Tasks
    var idempotency: Index
    var terminalOrder: seq<TaskId>
    var retainedBytes: nat
    var unfinished: nat

    /** Every index and counter is the one derived from the records. */
    ghost predicate Accounted()
      reads this
    {
      Accounts(tasks, idempotency, terminalOrder, retainedBytes, unfinished)
    }

    /** Accounted, and within every retention limit. */
    ghost predicate Valid()
      reads this
    {
      && Accounted()
      && |terminalOrder| <= historyCapacity
      && retainedBytes <= maxPayloadBytes
      && unfinished <= maxUnfinished
    }

    constructor (historyCapacity: nat, maxPayloadBytes: nat, maxUnfinished: nat)
      requires maxPayloadBytes > 0 && maxUnfinished > 0
      ensures Valid() && tasks == map[]
      ensures this.historyCapacity == historyCapacity
      ensures this.maxPayloadBytes == maxPayloadBytes && this.maxUnfinished == maxUnfinished
    {
      this.historyCapacity := historyCapacity;
      this.maxPayloadBytes := maxPayloadBytes;
      this.maxUnfinished := maxUnfinished;
      tasks, idempotency, terminalOrder, retainedBytes, unfinished := map[], map[], [], 0, 0;
      new;
      assert UnfinishedIds(tasks) == {} && TerminalIds(tasks) == {};
    }

    /** In a valid store the payloads of any distinct retained tasks fit the limit together. */
    lemma PayloadsFit(order: seq<TaskId>)
      requires Valid() && NoDuplicates(order) && forall id :: id in order ==> id in tasks
      ensures PayloadSum(tasks, order) <= maxPayloadBytes
    {
      assert Ids(order) <= tasks.Keys;
      BytesCountPayloads(tasks, order);
    }

    method RemoveEncodedTask(id: TaskId) returns (task: Option<StoredTask>)
      requires Accounted()
      modifies this
      ensures Accounted()
      ensures task == if id in old(tasks) then Some(old(tasks)[id]) else None
      ensures tasks == old(tasks) - {id}
      ensures terminalOrder == Without(old(terminalOrder), id)
      ensures retainedBytes <= old(retainedBytes) && unfinished <= old(unfinished)
      ensures idempotency.Keys <= old(idempotency.Keys)
    {
      if id !in tasks {
        assert tasks - {id} == tasks;
        assert id !in Ids(terminalOrder);
        return None;
      }
      var removed := tasks[id];
      AccountsRemove(tasks, idempotency, terminalOrder, retainedBytes, unfinished, id);
      tasks := tasks - {id};
      retainedBytes := retainedBytes - Size(removed);
      if !removed.life.state.IsTerminal() {
        unfinished := unfinished - 1;
      }
      if removed.request.idempotencyKey.Some? {
        idempotency := idempotency - {removed.request.idempotencyKey.value};
      }
      terminalOrder := Without(terminalOrder, id);
      task := Some(removed);
    }

    method EvictOldestTerminal() returns (evicted: bool)
      requires Accounted()
      modifies this
      ensures Accounted()
      ensures evicted <==> old(terminalOrder) != []
      ensures evicted ==> terminalOrder == old(terminalOrder)[1..] && tasks == old(tasks) - {old(terminalOrder)[0]}
      ensures !evicted ==> tasks == old(tasks) && terminalOrder == old(terminalOrder)
      ensures retainedBytes <= old(retainedBytes) && unfinished == old(unfinished)
      ensures LiveBytes(tasks) == LiveBytes(old(tasks))
      ensures idempotency.Keys <= old(idempotency.Keys)
    {
      if terminalOrder == [] {
        return false;
      }
      var id := terminalOrder[0];
      assert id in Ids(terminalOrder);
      assert id !in terminalOrder[1..];
      EvictionKeepsLive(tasks, {id});
      var removed := RemoveEncodedTask(id);
      evicted := removed.Some?;
    }

    /** Bytes of all terminal records: what evicting everything would reclaim. */
    method ReclaimableBytes() returns (bytes: nat)
      requires Accounted()
      ensures bytes + LiveBytes(tasks) == Bytes(tasks)
    {
      bytes := 0;
      var i := 0;
      assert terminalOrder[0..] == terminalOrder;
      while i < |terminalOrder|
        invariant 0 <= i <= |terminalOrder|
        invariant Ids(terminalOrder[i..]) <= tasks.Keys
        invariant bytes + SeqBytes(tasks, terminalOrder[i..]) == SeqBytes(tasks, terminalOrder)
      {
        assert terminalOrder[i] in Ids(terminalOrder[i..]);
        assert terminalOrder[i..][1..] == terminalOrder[i + 1..];
        assert Ids(terminalOrder[i + 1..]) <= Ids(terminalOrder[i..]);
        bytes := bytes + Size(tasks[terminalOrder[i]]);
        i := i + 1;
      }
      BytesRemoveAll(tasks, terminalOrder);
    }

    /** The payload eviction loop; it never runs out of terminal tasks. */
    method MakeRoom(requested: nat) returns (ghost evicted: nat)
      requires Accounted()
      requires LiveBytes(tasks) + requested <= maxPayloadBytes
      modifies this
      ensures Accounted()
      ensures retainedBytes + requested <= maxPayloadBytes && unfinished == old(unfinished)
      ensures idempotency.Keys <= old(idempotency.Keys)
      ensures evicted <= |old(terminalOrder)|
      ensures terminalOrder == old(terminalOrder)[evicted..]
      ensures tasks == Evicted(old(tasks), old(terminalOrder), evicted)
      ensures evicted > 0 ==> Bytes(Evicted(old(tasks), old(terminalOrder), evicted - 1)) + requested > maxPayloadBytes
    {
      ghost var all, order := tasks, terminalOrder;
      evicted := 0;
      assert Evicted(all, order, 0) == all;
      while retainedBytes > maxPayloadBytes - requested
        invariant Accounted()
        invariant evicted <= |order| && terminalOrder == order[evicted..]
        invariant tasks == Evicted(all, order, evicted)
        invariant evicted > 0 ==> Bytes(Evicted(all, order, evicted - 1)) + requested > maxPayloadBytes
        invariant unfinished == old(unfinished) && LiveBytes(tasks) == LiveBytes(all)
        invariant idempotency.Keys <= old(idempotency.Keys)
        decreases |terminalOrder|
      {
        if terminalOrder == [] {
          NothingToEvict(tasks);
          assert false;
        }
        assert Bytes(tasks) + requested > maxPayloadBytes;
        EvictedStep(all, order, evicted);
        var ok := EvictOldestTerminal();
        evicted := evicted + 1;
      }
    }

    /** The checks of an accept, made before anything changes: an early answer, or room for a new task. */
    method ScreenRequest(id: TaskId, request: Request, now: nat) returns (early: Option<StoreResult<AcceptOutcome>>)
      requires Valid()
      ensures early.Some? ==>
                && AcceptVerdict(tasks, maxUnfinished, maxPayloadBytes, id, request, now, early.value)
                && (early.value.Err? || !early.value.value.created)
      ensures early.None? ==>
                && AcceptVerdict(tasks, maxUnfinished, maxPayloadBytes, id, request, now,
                                 Ok(AcceptOutcome(id, Accepted(now), true)))
                && id !in tasks && unfinished < maxUnfinished
                && LiveBytes(tasks) + |request.payload| <= maxPayloadBytes
                && (request.idempotencyKey.Some? ==> request.idempotencyKey.value !in idempotency)
    {
      if request.kindId == "" || request.codecId == "" {
        return Some(Err(InvalidRequest));
      }
      if request.idempotencyKey.Some? && request.idempotencyKey.value in idempotency {
        var holder := idempotency[request.idempotencyKey.value];
        assert HoldsKey(tasks, holder, request);
        if tasks[holder].request != request {
          return Some(Err(IdempotencyConflict));
        }
        return Some(Ok(AcceptOutcome(holder, tasks[holder].life, false)));
      }
      assert forall holder :: !HoldsKey(tasks, holder, request);
      if id in tasks {
        return Some(Err(DuplicateTask));
      }
      if unfinished >= maxUnfinished {
        return Some(Err(UnfinishedLimitExceeded(maxUnfinished)));
      }
      var requested := |request.payload|;
      var reclaimable := ReclaimableBytes();
      var minimum := SaturatingSub(retainedBytes, reclaimable);
      if minimum + requested > maxPayloadBytes {
        return Some(Err(CapacityExceeded(requested, SaturatingSub(maxPayloadBytes, minimum))));
      }
      early := None;
    }

    /**
     Accepts a request. A failed call changes nothing; a replay returns the task
     that holds the key; a new task evicts the shortest sufficient prefix of the
     eviction queue (`evicted` tasks) and nothing else.
     */
    method AcceptEncoded(id: TaskId, request: Request, now: nat)
      returns (r: StoreResult<AcceptOutcome>, ghost evicted: nat)
      requires Valid()
      modifies this
      ensures Valid()
      ensures AcceptVerdict(old(tasks), maxUnfinished, maxPayloadBytes, id, request, now, r)
      ensures r.Err? || !r.value.created ==>
                tasks == old(tasks) && terminalOrder == old(terminalOrder) && idempotency == old(idempotency)
      ensures r.Ok? && r.value.created ==>
                && evicted <= |old(terminalOrder)|
                && terminalOrder == old(terminalOrder)[evicted..]
                && tasks == Evicted(old(tasks), old(terminalOrder), evicted)[id := StoredTask(request, Accepted(now))]
                && (evicted > 0 ==>
                      Bytes(Evicted(old(tasks), old(terminalOrder), evicted - 1)) + |request.payload| > maxPayloadBytes)
    {
      var early := ScreenRequest(id, request, now);
      if early.Some? {
        return early.value, 0;
      }
      evicted := MakeRoom(|request.payload|);
      InsertTask(id, StoredTask(request, Accepted(now)));
      r := Ok(AcceptOutcome(id, Accepted(now), true));
    }

    method InsertTask(id: TaskId, task: StoredTask)
      requires Accounted() && id !in tasks && !task.life.state.IsTerminal()
      requires task.request.idempotencyKey.Some? ==> task.request.idempotencyKey.value !in idempotency
      modifies this
      ensures Accounted()
      ensures tasks == old(tasks)[id := task] && terminalOrder == old(terminalOrder)
      ensures retainedBytes == old(retainedBytes) + Size(task) && unfinished == old(unfinished) + 1
    {
      AccountsInsert(tasks, idempotency, terminalOrder, retainedBytes, unfinished, id, task);
      if task.request.idempotencyKey.Some? {
        idempotency := idempotency[task.request.idempotencyKey.value := id];
      }
      retainedBytes := retainedBytes + Size(task);
      tasks := tasks[id := task];
      unfinished := unfinished + 1;
    }

    /** Rewrites one lifecycle in place, without touching any index. */
    method WriteLife(id: TaskId, life: Lifecycle)
      requires Accounted() && id in tasks
      requires life.state.IsTerminal() <==> tasks[id].life.state.IsTerminal()
      modifies this`tasks
      ensures Accounted()
      ensures tasks == old(tasks)[id := old(tasks)[id].(life := life)]
    {
      AccountsRewrite(tasks, idempotency, terminalOrder, retainedBytes, unfinished, id, life);
      tasks := tasks[id := tasks[id].(life := life)];
    }

    /** Starts a queued attempt. An attempt overflow fails after the version was already raised. */
    method StartEncoded(cmd: StartCommand) returns (r: StoreResult<Lifecycle>)
      requires Valid()
      modifies this`tasks
      ensures Valid()
      ensures cmd.id !in old(tasks) ==> r == Err(NotFound) && tasks == old(tasks)
      ensures cmd.id in old(tasks) ==>
                var life := old(tasks)[cmd.id].life;
                && r == StartResult(life, cmd)
                && (r.Ok? ==> tasks == old(tasks)[cmd.id := old(tasks)[cmd.id].(life := r.value)])
                && (r.Err? && !(CanStart(life, cmd) && life.stateVersion < U64_MAX) ==> tasks == old(tasks))
                && (r.Err? && CanStart(life, cmd) && life.stateVersion < U64_MAX ==>
                      tasks == old(tasks)[cmd.id := old(tasks)[cmd.id].(life := life.(stateVersion := life.stateVersion + 1))])
    {
      if cmd.id !in tasks {
        return Err(NotFound);
      }
      var life := tasks[cmd.id].life;
      if life.stateVersion != cmd.expectedVersion || !life.state.Queued? {
        return Err(Conflict);
      }
      if life.stateVersion >= U64_MAX {
        return Err(Failure);
      }
      WriteLife(cmd.id, life.(stateVersion := life.stateVersion + 1));
      if life.attempt >= U32_MAX {
        return Err(Failure);
      }
      WriteLife(cmd.id, Started(life, cmd));
      r := Ok(Started(life, cmd));
    }

    /** A version overflow is the one failure that leaves a half-written record behind. */
    ghost predicate Overflows(cmd: TransitionCommand)
      reads this
    {
      && cmd.id in tasks
      && tasks[cmd.id].life.stateVersion >= U64_MAX
      && TransitionSucceeds(tasks[cmd.id].life.(stateVersion := 0), cmd.(expectedVersion := 0))
      && tasks[cmd.id].life.stateVersion == cmd.expectedVersion
    }

    /** The history eviction loop. */
    method TrimHistory()
      requires Accounted()
      modifies this
      ensures Accounted()
      ensures |terminalOrder| <= historyCapacity
      ensures var n := SaturatingSub(|old(terminalOrder)|, historyCapacity);
        terminalOrder == old(terminalOrder)[n..] && tasks == Evicted(old(tasks), old(terminalOrder), n)
      ensures retainedBytes <= old(retainedBytes) && unfinished <= old(unfinished)
    {
      ghost var n := 0;
      assert Evicted(tasks, terminalOrder, 0) == tasks;
      while |terminalOrder| > historyCapacity
        invariant Accounted()
        invariant n <= |old(terminalOrder)| && terminalOrder == old(terminalOrder)[n..]
        invariant n == 0 || n <= SaturatingSub(|old(terminalOrder)|, historyCapacity)
        invariant tasks == Evicted(old(tasks), old(terminalOrder), n)
        invariant retainedBytes <= old(retainedBytes) && unfinished <= old(unfinished)
        decreases |terminalOrder|
      {
        EvictedStep(old(tasks), old(terminalOrder), n);
        var ok := EvictOldestTerminal();
        n := n + 1;
      }
    }

    /** Rewrites one lifecycle with its indexes; a task that ends may push the oldest terminal tasks out. */
    method WriteTransition(id: TaskId, life: Lifecycle)
      requires Valid() && id in tasks && (tasks[id].life.state.IsTerminal() ==> life.state.IsTerminal())
      modifies this
      ensures Valid()
      ensures var task := old(tasks)[id];
        var ends := !task.life.state.IsTerminal() && life.state.IsTerminal();
        var queue := if ends then old(terminalOrder) + [id] else old(terminalOrder);
        var n := SaturatingSub(|queue|, historyCapacity);
        && terminalOrder == queue[n..]
        && tasks == Evicted(old(tasks)[id := task.(life := life)], queue, n)
    {
      var ends := !tasks[id].life.state.IsTerminal() && life.state.IsTerminal();
      AccountsRewrite(tasks, idempotency, terminalOrder, retainedBytes, unfinished, id, life);
      tasks := tasks[id := tasks[id].(life := life)];
      if ends {
        unfinished := SaturatingSub(unfinished, 1);
        terminalOrder := terminalOrder + [id];
        TrimHistory();
      } else {
        assert Evicted(tasks, terminalOrder, 0) == tasks;
      }
    }

    /** The part of a transition that is written before a version overflow is noticed. */
    method WriteHalf(id: TaskId, life: Lifecycle)
      requires Valid() && id in tasks && (tasks[id].life.state.IsTerminal() ==> life.state.IsTerminal())
      modifies this`tasks
      ensures tasks == old(tasks)[id := old(tasks)[id].(life := life)]
      ensures Valid() <==> (old(tasks)[id].life.state.IsTerminal() <==> life.state.IsTerminal())
    {
      HalfWriteAccounts(tasks, idempotency, terminalOrder, retainedBytes, unfinished, id, life);
      tasks := tasks[id := tasks[id].(life := life)];
    }

    /**
     Applies a lifecycle transition. A task that ends joins the back of the eviction
     queue, and the oldest terminal tasks beyond the history capacity are evicted.
     */
    method TransitionEncoded(cmd: TransitionCommand) returns (r: StoreResult<Lifecycle>)
      requires Valid()
      modifies this
      ensures !old(Overflows(cmd)) ==> Valid()
      ensures old(Overflows(cmd)) ==>
                && terminalOrder == old(terminalOrder) && unfinished == old(unfinished)
                && retainedBytes == old(retainedBytes) && idempotency == old(idempotency)
                && (Valid() <==> (old(tasks)[cmd.id].life.state.IsTerminal() <==> cmd.state.IsTerminal()))
      ensures !CommandFits(cmd) ==> r == Err(InvalidRequest)
      ensures CommandFits(cmd) && cmd.id !in old(tasks) ==> r == Err(NotFound)
      ensures CommandFits(cmd) && cmd.id in old(tasks) ==> r == TransitionResult(old(tasks)[cmd.id].life, cmd)
      ensures r.Err? && !old(Overflows(cmd)) ==> tasks == old(tasks) && terminalOrder == old(terminalOrder)
      ensures old(Overflows(cmd)) ==>
                var task := old(tasks)[cmd.id];
                tasks == old(tasks)[cmd.id := task.(life := task.life.(state := cmd.state, retryNotBefore := cmd.retryNotBefore))]
      ensures r.Ok? ==>
                var task := old(tasks)[cmd.id];
                var ends := !task.life.state.IsTerminal() && r.value.state.IsTerminal();
                var queue := if ends then old(terminalOrder) + [cmd.id] else old(terminalOrder);
                var n := SaturatingSub(|queue|, historyCapacity);
                && terminalOrder == queue[n..]
                && tasks == Evicted(old(tasks)[cmd.id := task.(life := r.value)], queue, n)
    {
      if !CommandFits(cmd) {
        return Err(InvalidRequest);
      }
      if cmd.id !in tasks {
        return Err(NotFound);
      }
      var life := tasks[cmd.id].life;
      TerminalIsStuck(life.state);
      if !CanTransition(life, cmd) {
        return Err(Conflict);
      }
      if cmd.output.Some? && life.state.IsTerminal() {
        return Err(InvalidRequest);
      }
      if cmd.retryNotBefore.Some? && !cmd.state.Queued? {
        return Err(InvalidRequest);
      }
      if life.stateVersion >= U64_MAX {
        WriteHalf(cmd.id, life.(state := cmd.state, retryNotBefore := cmd.retryNotBefore));
        return Err(Failure);
      }
      WriteTransition(cmd.id, Transitioned(life, cmd));
      r := Ok(Transitioned(life, cmd));
    }

    method UpdateProgress(cmd: ProgressCommand) returns (r: StoreResult<Lifecycle>)
      requires Valid()
      modifies this`tasks
      ensures Valid()
      ensures r.Ok? <==> cmd.id in old(tasks) && CanProgress(old(tasks)[cmd.id].life, cmd)
      ensures r.Ok? ==>
                && r.value == Progressed(old(tasks)[cmd.id].life, cmd)
                && tasks == old(tasks)[cmd.id := old(tasks)[cmd.id].(life := r.value)]
      ensures r.Err? ==> tasks == old(tasks) && r.error == if cmd.id in old(tasks) then Conflict else NotFound
    {
      if cmd.id !in tasks {
        return Err(NotFound);
      }
      var life := tasks[cmd.id].life;
      if !life.state.Running? || life.attempt != cmd.expectedAttempt
         || (life.progress.Some? && life.progress.value.version >= cmd.version) {
        return Err(Conflict);
      }
      WriteLife(cmd.id, Progressed(life, cmd));
      r := Ok(Progressed(life, cmd));
    }

    method RemoveAll(keys: seq<Key>)
      requires Valid()
      modifies this
      ensures Valid()
      ensures tasks == old(tasks) - KeyIds(keys) && terminalOrder == Kept(old(terminalOrder), KeyIds(keys))
    {
      var i := 0;
      assert KeyIds(keys[..0]) == {} && tasks == tasks - {};
      KeptAll(terminalOrder);
      while i < |keys|
        invariant 0 <= i <= |keys|
        invariant Valid()
        invariant tasks == old(tasks) - KeyIds(keys[..i])
        invariant terminalOrder == Kept(old(terminalOrder), KeyIds(keys[..i]))
      {
        KeyIdsSnoc(keys, i);
        KeptStep(old(terminalOrder), KeyIds(keys[..i]), keys[i].id);
        var removed := RemoveEncodedTask(keys[i].id);
        i := i + 1;
      }
      assert keys[..i] == keys;
    }

    /** Removes the oldest expired terminal tasks, at most `maxRows` of them. */
    method PruneTerminalBefore(cutoff: nat, maxRows: nat) returns (count: nat)
      requires Valid() && maxRows > 0
      modifies this
      ensures Valid()
      ensures var expired := TakeKeys(SortKeys(ExpiredKeys(old(tasks), cutoff)), maxRows);
        && count == |expired|
        && tasks == old(tasks) - KeyIds(expired)
        && terminalOrder == Kept(old(terminalOrder), KeyIds(expired))
      ensures Retention.PrunesOldest(old(tasks), tasks, {}, cutoff, maxRows, count)
    {
      Retention.TakingPrunesOldest(ExpiredKeys(tasks, cutoff), tasks, {}, cutoff, maxRows);
      var expired := TakeKeys(SortKeys(ExpiredKeys(tasks, cutoff)), maxRows);
      RemoveAll(expired);
      count := |expired|;
    }

    /** One pass over the records, in any order, keeping the `fetch` smallest matching keys in a bounded heap. */
    method CollectSmallest(q: Query, fetch: nat) returns (heap: set<Key>)
      requires fetch > 0
      ensures IsSmallest(heap, Remaining(MatchingKeys(tasks, q), q.after), fetch)
    {
      heap := {};
      var todo := tasks.Keys;
      ghost var seen: set<Key> := {};
      while todo != {}
        invariant todo <= tasks.Keys
        invariant forall k :: k in seen <==>
                    k in Remaining(MatchingKeys(tasks, q), q.after) && k.id !in todo
        invariant IsSmallest(heap, seen, fetch)
        decreases |todo|
      {
        var id :| id in todo;
        todo := todo - {id};
        var key := KeyOf(tasks, id);
        if Matches(tasks[id], q) && After(q.after, key) {
          assert key in MatchingKeys(tasks, q);
          HeapPushSmallest(heap, seen, key, fetch);
          heap := HeapPush(heap, key, fetch);
          seen := seen + {key};
        }
      }
      assert seen == Remaining(MatchingKeys(tasks, q), q.after);
    }

    /** One page of matching tasks in `(acceptedAt, id)` order. */
    method ListEncoded(q: Query) returns (r: StoreResult<Listing>)
      ensures q.limit > MAX_QUERY_LIMIT ==> r == Err(InvalidRequest)
      ensures q.limit <= MAX_QUERY_LIMIT ==>
                var page := PageOf(MatchingKeys(tasks, q), q.after, PageSize(q));
                Retained(tasks, page.keys) && r == Ok(ListingOf(tasks, page))
    {
      if q.limit > MAX_QUERY_LIMIT {
        return Err(InvalidRequest);
      }
      var limit := PageSize(q);
      var heap := CollectSmallest(q, limit + 1);
      SmallestGivePage(heap, Remaining(MatchingKeys(tasks, q), q.after), limit);
      PageRetained(tasks, MatchingKeys(tasks, q), q.after, limit);
      r := Ok(ListingOf(tasks, PageFrom(SortKeys(heap), limit)));
    }

    /** One pass over the records, in any order, collecting the due queued tasks after the cursor. */
    method CollectReady(after: Option<Key>, now: nat) returns (found: set<Key>)
      ensures found == Remaining(ReadyKeys(tasks, now), after)
    {
      found := {};
      var todo := tasks.Keys;
      while todo != {}
        invariant todo <= tasks.Keys
        invariant forall k :: k in found <==> k in Remaining(ReadyKeys(tasks, now), after) && k.id !in todo
        decreases |todo|
      {
        var id :| id in todo;
        todo := todo - {id};
        var key := KeyOf(tasks, id);
        if IsReady(tasks[id], now) && After(after, key) {
          assert key in ReadyKeys(tasks, now);
          found := found + {key};
        }
      }
    }

    /**
     One page of queued tasks whose retry deadline has passed: collected, sorted, truncated,
     with the last key as cursor.
     */
    method ListReadyQueued(after: Option<Key>, limit: nat, now: nat) returns (r: StoreResult<Listing>)
      requires limit > 0
      ensures limit > MAX_QUERY_LIMIT ==> r == Err(InvalidRequest)
      ensures limit <= MAX_QUERY_LIMIT ==>
                var page := PageOf(ReadyKeys(tasks, now), after, limit);
                Retained(tasks, page.keys) && r == Ok(ListingOf(tasks, page))
    {
      if limit > MAX_QUERY_LIMIT {
        return Err(InvalidRequest);
      }
      var found := CollectReady(after, now);
      var keys := SortKeys(found);
      var next := None;
      if |keys| > limit {
        keys := keys[..limit];
        next := Some(keys[|keys| - 1]);
      }
      PageRetained(tasks, ReadyKeys(tasks, now), after, limit);
      r := Ok(ListingOf(tasks, Page(keys, next)));
    }
  }
}
