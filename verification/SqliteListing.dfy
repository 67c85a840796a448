/** Running a listing statement, and that its pages are those of the plain records. */
module SqliteListings {
  import opened TaskStates
  import opened TaskRecords
  import opened Keysets
  import opened PaddedDecimals
  import opened MemoryAccounting
  import opened MemoryStores
  import opened SqliteStores
  import opened QuerySql

  /** `ORDER BY accepted_at, id` on the columns, ids comparing as text. */
  predicate TextLess(rows: Rows, a: TaskId, b: TaskId)
    requires a in rows && b in rows
  {
    rows[a].acceptedAt < rows[b].acceptedAt
    || (rows[a].acceptedAt == rows[b].acceptedAt && LexLess(Padded(a), Padded(b)))
  }

  function RowKey(rows: Rows, id: TaskId): Key
    requires id in rows
  {
    Key(rows[id].acceptedAt, id)
  }

  lemma TextLessIsLess(rows: Rows, a: TaskId, b: TaskId)
    requires a in rows && b in rows
    ensures TextLess(rows, a, b) <==> Less(RowKey(rows, a), RowKey(rows, b))
  {
    PaddedOrder(a, b);
  }

  function Hits(rows: Rows, conditions: seq<Condition>, params: seq<Value>): set<TaskId> {
    set id | id in rows && Where(conditions, params, Padded(id), rows[id])
  }

  /** `ids` lists the first `limit` hits in text order. */
  ghost predicate FirstHits(rows: Rows, hits: set<TaskId>, limit: nat, ids: seq<TaskId>)
    requires hits <= rows.Keys
  {
    && (forall i :: 0 <= i < |ids| ==> ids[i] in hits)
    && (forall i, j :: 0 <= i < j < |ids| ==> TextLess(rows, ids[i], ids[j]))
    && |ids| <= limit
    && (forall id :: id in hits && id !in ids ==> |ids| == limit && forall i :: 0 <= i < |ids| ==> TextLess(rows, ids[i], id))
  }

  lemma FirstExists(rows: Rows, todo: set<TaskId>)
    requires todo != {} && todo <= rows.Keys
    ensures exists id :: id in todo && forall other :: other in todo && other != id ==> TextLess(rows, id, other)
  {
    var keys := set id | id in todo :: RowKey(rows, id);
    var some :| some in todo;
    assert RowKey(rows, some) in keys;
    var least := Least(keys);
    forall other | other in todo && other != least.id ensures TextLess(rows, least.id, other) {
      assert RowKey(rows, other) in keys;
      TextLessIsLess(rows, least.id, other);
    }
  }

  /** The database engine: orders the hits by the columns and stops at the limit. */
  method Ordered(rows: Rows, hits: set<TaskId>, limit: nat) returns (ids: seq<TaskId>)
    requires hits <= rows.Keys
    ensures FirstHits(rows, hits, limit, ids)
  {
    ids := [];
    var todo := hits;
    while todo != {} && |ids| < limit
      invariant todo <= hits && |ids| <= limit
      invariant forall i :: 0 <= i < |ids| ==> ids[i] in hits
      invariant forall id :: id in hits ==> id in todo || id in ids
      invariant forall i, j :: 0 <= i < j < |ids| ==> TextLess(rows, ids[i], ids[j])
      invariant forall i, id :: 0 <= i < |ids| && id in todo ==> TextLess(rows, ids[i], id)
      decreases |todo|
    {
      FirstExists(rows, todo);
      var next :| next in todo && forall other :: other in todo && other != next ==> TextLess(rows, next, other);
      todo := todo - {next};
      ids := ids + [next];
    }
  }

  // ---- the answer, as keys ----

  function KeysOf(rows: Rows, ids: seq<TaskId>): seq<Key>
    requires forall i :: 0 <= i < |ids| ==> ids[i] in rows
  {
    seq(|ids|, i requires 0 <= i < |ids| => RowKey(rows, ids[i]))
  }

  function WantedKeys(tasks: Tasks, w: Wanted): set<Key> {
    set id | id in tasks && Wants(w, tasks[id], KeyOf(tasks, id)) :: KeyOf(tasks, id)
  }

  lemma WantedHistory(tasks: Tasks, q: Query)
    ensures WantedKeys(tasks, History(q)) == Remaining(MatchingKeys(tasks, q), q.after)
  {
  }

  lemma WantedReady(tasks: Tasks, after: Option<Key>, now: nat)
    ensures WantedKeys(tasks, ReadyAt(after, now)) == Remaining(ReadyKeys(tasks, now), after)
  {
  }

  /** By columns and text, the hits are exactly the wanted tasks. */
  lemma HitsAreWanted(rows: Rows, conditions: seq<Condition>, params: seq<Value>, w: Wanted, id: TaskId)
    requires RowsOk(rows) && Selects(conditions, params, w) && id in rows
    ensures id in Hits(rows, conditions, params) <==> RowKey(rows, id) in WantedKeys(TasksOf(rows), w)
    ensures RowKey(rows, id) == KeyOf(TasksOf(rows), id)
  {
    var tasks := TasksOf(rows);
    assert SelectsRow(conditions, params, w, id, rows[id]);
    assert RowOk(rows[id]) && tasks[id] == TaskOf(rows[id]);
    assert KeyOf(tasks, id) in WantedKeys(tasks, w) <==> Wants(w, tasks[id], KeyOf(tasks, id));
  }

  lemma FirstHitsSorted(rows: Rows, hits: set<TaskId>, limit: nat, ids: seq<TaskId>)
    requires hits <= rows.Keys && FirstHits(rows, hits, limit, ids)
    ensures StrictlySorted(KeysOf(rows, ids))
    ensures forall k :: k in KeysOf(rows, ids) <==> k.id in ids && k.id in rows && k == RowKey(rows, k.id)
  {
    var keys := KeysOf(rows, ids);
    forall i, j | 0 <= i < j < |keys| ensures Less(keys[i], keys[j]) {
      TextLessIsLess(rows, ids[i], ids[j]);
    }
    forall k: Key | k.id in ids && k.id in rows && k == RowKey(rows, k.id) ensures k in keys {
      var i :| 0 <= i < |ids| && ids[i] == k.id;
      assert keys[i] == k;
    }
  }

  /** A wanted key outside the answer follows every key in it, and the answer is full. */
  lemma RestIsLater(
    rows: Rows, conditions: seq<Condition>, params: seq<Value>, w: Wanted, limit: nat, ids: seq<TaskId>, k: Key)
    requires RowsOk(rows) && Selects(conditions, params, w) && FirstHits(rows, Hits(rows, conditions, params), limit, ids)
    requires k in WantedKeys(TasksOf(rows), w) && k !in KeysOf(rows, ids)
    ensures |ids| == limit && forall j :: j in KeysOf(rows, ids) ==> Less(j, k)
  {
    FirstHitsSorted(rows, Hits(rows, conditions, params), limit, ids);
    HitsAreWanted(rows, conditions, params, w, k.id);
    forall j | j in KeysOf(rows, ids) ensures Less(j, k) {
      TextLessIsLess(rows, j.id, k.id);
    }
  }

  lemma SmallestIntro(low: set<Key>, all: set<Key>, limit: nat)
    requires low <= all && |low| <= limit
    requires forall k :: k in all && k !in low ==> |low| == limit && forall j :: j in low ==> Less(j, k)
    ensures IsSmallest(low, all, limit)
  {
  }

  lemma FirstHitsAreSmallest(
    rows: Rows, conditions: seq<Condition>, params: seq<Value>, w: Wanted, limit: nat, ids: seq<TaskId>, low: set<Key>)
    requires RowsOk(rows) && Selects(conditions, params, w) && FirstHits(rows, Hits(rows, conditions, params), limit, ids)
    requires low == (set k | k in KeysOf(rows, ids))
    ensures IsSmallest(low, WantedKeys(TasksOf(rows), w), limit)
    ensures KeysOf(rows, ids) == SortKeys(low)
  {
    var all := WantedKeys(TasksOf(rows), w);
    FirstHitsSorted(rows, Hits(rows, conditions, params), limit, ids);
    SortedUnique(KeysOf(rows, ids), SortKeys(low));
    forall k | k in low ensures k in all {
      HitsAreWanted(rows, conditions, params, w, k.id);
    }
    forall k | k in all && k !in low ensures |ids| == limit && forall j :: j in low ==> Less(j, k) {
      RestIsLater(rows, conditions, params, w, limit, ids, k);
    }
    SmallestIntro(low, all, limit);
  }

  /** The statement's answer, truncated to a page, is the page of the plain records. */
  lemma AnswerIsPage(rows: Rows, conditions: seq<Condition>, params: seq<Value>, w: Wanted, limit: nat, ids: seq<TaskId>)
    requires limit >= 1 && RowsOk(rows) && Selects(conditions, params, w)
    requires FirstHits(rows, Hits(rows, conditions, params), limit + 1, ids)
    ensures PageFrom(KeysOf(rows, ids), limit) == PageFrom(SortKeys(WantedKeys(TasksOf(rows), w)), limit)
  {
    var low := set k | k in KeysOf(rows, ids);
    FirstHitsAreSmallest(rows, conditions, params, w, limit + 1, ids, low);
    SmallestGivePage(low, WantedKeys(TasksOf(rows), w), limit);
  }

  /** Runs a finished statement and truncates the lookahead row. */
  method FetchPage(rows: Rows, built: Built, limit: nat, ghost w: Wanted) returns (page: Page)
    requires limit >= 1 && RowsOk(rows) && Asks(built, limit + 1, w)
    ensures page == PageFrom(SortKeys(WantedKeys(TasksOf(rows), w)), limit)
  {
    var select := Parse(built.sql).value;
    var ids := Ordered(rows, Hits(rows, select.conditions, built.params), limit + 1);
    AnswerIsPage(rows, select.conditions, built.params, w, limit, ids);
    page := PageFrom(KeysOf(rows, ids), limit);
  }

  /** Same page and continuation as the volatile store over the same records, unless the cursor time is out of range. */
  method ListEncoded(rows: Rows, q: Query) returns (r: StoreResult<Listing>)
    requires RowsOk(rows)
    ensures q.limit > MAX_QUERY_LIMIT || (q.after.Some? && q.after.value.at > I64_MAX) <==> r.Err?
    ensures r.Err? ==> r == Err(InvalidRequest)
    ensures r.Ok? ==>
              var page := PageOf(MatchingKeys(TasksOf(rows), q), q.after, PageSize(q));
              Retained(TasksOf(rows), page.keys) && r == Ok(ListingOf(TasksOf(rows), page))
  {
    if q.limit > MAX_QUERY_LIMIT {
      return Err(InvalidRequest);
    }
    var limit := PageSize(q);
    var built := BuildHistoryQuery(q, limit);
    if built.Err? {
      return Err(built.error);
    }
    var page := FetchPage(rows, built.value, limit, History(q));
    WantedHistory(TasksOf(rows), q);
    PageRetained(TasksOf(rows), MatchingKeys(TasksOf(rows), q), q.after, limit);
    r := Ok(ListingOf(TasksOf(rows), page));
  }

  method ListReadyQueued(rows: Rows, after: Option<Key>, limit: nat, now: nat) returns (r: StoreResult<Listing>)
    requires RowsOk(rows) && limit > 0
    ensures limit > MAX_QUERY_LIMIT || now > I64_MAX || (after.Some? && after.value.at > I64_MAX) <==> r.Err?
    ensures r.Err? ==> r == Err(InvalidRequest)
    ensures r.Ok? ==>
              var page := PageOf(ReadyKeys(TasksOf(rows), now), after, limit);
              Retained(TasksOf(rows), page.keys) && r == Ok(ListingOf(TasksOf(rows), page))
  {
    if limit > MAX_QUERY_LIMIT {
      return Err(InvalidRequest);
    }
    var built := BuildReadyQuery(after, limit, now);
    if built.Err? {
      return Err(built.error);
    }
    var page := FetchPage(rows, built.value, limit, ReadyAt(after, now));
    WantedReady(TasksOf(rows), after, now);
    PageRetained(TasksOf(rows), ReadyKeys(TasksOf(rows), now), after, limit);
    r := Ok(ListingOf(TasksOf(rows), page));
  }
}
