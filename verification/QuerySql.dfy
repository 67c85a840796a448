/**
 History and ready-queue listings of the durable store. The statement text is
 grown fragment by fragment with numbered placeholders; `Parse` reads it back and
 `Where` evaluates it on columns and text keys, with missing values comparing
 false as in SQL.
 */
module QuerySql {
  import opened TaskStates
  import opened TaskRecords
  import opened Keysets
  import opened PaddedDecimals
  import opened MemoryStores
  import opened SqliteStores

  datatype Value = Integer(number: nat) | Text(text: string)

  /** Fragments of statement text. */
  datatype Token =
    | SelectFrom
    | WhereWord
    | AndWord
    | CursorOpen
    | CategoryEquals
    | CorrelationEquals
    | StateInOpen
    | StateIsQueued
    | RetryDueOpen
    | Placeholder(number: nat)
    | Comma
    | Close
    | OrderByLimit

  datatype Built = Built(sql: seq<Token>, params: seq<Value>)

  // ---- what a statement means ----

  datatype Condition =
    | AfterCursor(time: nat, id: nat)
    | CategoryIs(value: nat)
    | CorrelationIs(value: nat)
    | StateIn(values: seq<nat>)
    | IsQueued
    | RetryDue(now: nat)

  datatype Select = Select(conditions: seq<Condition>, limit: nat)

  /** The value bound to a one-based placeholder. */
  function Param(params: seq<Value>, number: nat): Option<Value> {
    if 1 <= number <= |params| then Some(params[number - 1]) else None
  }

  predicate Holds(c: Condition, params: seq<Value>, key: string, row: Row) {
    match c
    case AfterCursor(time, id) =>
      && Param(params, time).Some? && Param(params, time).value.Integer?
      && Param(params, id).Some? && Param(params, id).value.Text?
      && (var at := Param(params, time).value.number;
          row.acceptedAt > at || (row.acceptedAt == at && LexLess(Param(params, id).value.text, key)))
    case CategoryIs(value) => row.category.Some? && Param(params, value) == Some(Text(row.category.value))
    case CorrelationIs(value) => row.correlationKey.Some? && Param(params, value) == Some(Text(row.correlationKey.value))
    case StateIn(values) => exists i :: 0 <= i < |values| && Param(params, values[i]) == Some(Text(row.stateKind))
    case IsQueued => row.stateKind == QueuedKind.AsStr()
    case RetryDue(now) =>
      row.retryNotBefore.None?
      || (Param(params, now).Some? && Param(params, now).value.Integer?
          && row.retryNotBefore.value <= Param(params, now).value.number)
  }

  predicate Where(conditions: seq<Condition>, params: seq<Value>, key: string, row: Row) {
    forall i :: 0 <= i < |conditions| ==> Holds(conditions[i], params, key, row)
  }

  // ---- reading a statement back ----

  /** `?n, ?n, ... )` */
  function ParseList(ts: seq<Token>): Option<(seq<nat>, seq<Token>)> {
    if |ts| < 2 || !ts[0].Placeholder? then None
    else if ts[1] == Close then Some(([ts[0].number], ts[2..]))
    else if ts[1] == Comma && ParseList(ts[2..]).Some? then
      var (tail, rest) := ParseList(ts[2..]).value;
      Some(([ts[0].number] + tail, rest))
    else None
  }

  function ParseCondition(ts: seq<Token>): Option<(Condition, seq<Token>)> {
    if ts == [] then None
    else match ts[0]
      case CursorOpen =>
        if ParseList(ts[1..]).Some? && |ParseList(ts[1..]).value.0| == 2
        then var (ps, rest) := ParseList(ts[1..]).value; Some((AfterCursor(ps[0], ps[1]), rest))
        else None
      case StateInOpen =>
        if ParseList(ts[1..]).Some? then var (ps, rest) := ParseList(ts[1..]).value; Some((StateIn(ps), rest)) else None
      case RetryDueOpen =>
        if ParseList(ts[1..]).Some? && |ParseList(ts[1..]).value.0| == 1
        then var (ps, rest) := ParseList(ts[1..]).value; Some((RetryDue(ps[0]), rest))
        else None
      case StateIsQueued => Some((IsQueued, ts[1..]))
      case CategoryEquals =>
        if |ts| >= 2 && ts[1].Placeholder? then Some((CategoryIs(ts[1].number), ts[2..])) else None
      case CorrelationEquals =>
        if |ts| >= 2 && ts[1].Placeholder? then Some((CorrelationIs(ts[1].number), ts[2..])) else None
      case _ => None
  }

  /** Conditions, each introduced by its joining word: `WHERE` for the first, `AND` for the others. */
  function ParseConditions(ts: seq<Token>, first: bool): Option<(seq<Condition>, seq<Token>)>
    decreases |ts|
  {
    if ts == [] || ts[0] != (if first then WhereWord else AndWord) then Some(([], ts))
    else if ParseCondition(ts[1..]).None? then None
    else
      var (c, rest) := ParseCondition(ts[1..]).value;
      if |rest| >= |ts| || ParseConditions(rest, false).None? then None
      else var (tail, end) := ParseConditions(rest, false).value; Some(([c] + tail, end))
  }

  function Parse(ts: seq<Token>): Option<Select> {
    if ts == [] || ts[0] != SelectFrom || ParseConditions(ts[1..], true).None? then None
    else
      var (conditions, rest) := ParseConditions(ts[1..], true).value;
      if |rest| == 2 && rest[0] == OrderByLimit && rest[1].Placeholder?
      then Some(Select(conditions, rest[1].number)) else None
  }

  // ---- writing a statement, and that reading undoes it ----

  function RenderList(ps: seq<nat>): seq<Token> {
    if ps == [] then []
    else if |ps| == 1 then [Placeholder(ps[0])]
    else [Placeholder(ps[0]), Comma] + RenderList(ps[1..])
  }

  function Render(c: Condition): seq<Token> {
    match c
    case AfterCursor(time, id) => [CursorOpen] + RenderList([time, id]) + [Close]
    case CategoryIs(value) => [CategoryEquals, Placeholder(value)]
    case CorrelationIs(value) => [CorrelationEquals, Placeholder(value)]
    case StateIn(values) => [StateInOpen] + RenderList(values) + [Close]
    case IsQueued => [StateIsQueued]
    case RetryDue(now) => [RetryDueOpen] + RenderList([now]) + [Close]
  }

  function RenderAll(conditions: seq<Condition>, first: bool): seq<Token> {
    if conditions == [] then []
    else [if first then WhereWord else AndWord] + Render(conditions[0]) + RenderAll(conditions[1..], false)
  }

  function RenderSelect(conditions: seq<Condition>, limit: nat): seq<Token> {
    [SelectFrom] + RenderAll(conditions, true) + [OrderByLimit, Placeholder(limit)]
  }

  predicate WellFormed(c: Condition) {
    c.StateIn? ==> c.values != []
  }

  lemma {:induction false} RenderListSnoc(ps: seq<nat>, p: nat)
    requires ps != []
    ensures RenderList(ps + [p]) == RenderList(ps) + [Comma, Placeholder(p)]
  {
    if |ps| == 1 {
      assert (ps + [p])[1..] == [p];
    } else {
      assert (ps + [p])[1..] == ps[1..] + [p];
      RenderListSnoc(ps[1..], p);
    }
  }

  lemma RenderPair(a: nat, b: nat)
    ensures RenderList([a, b]) == [Placeholder(a), Comma, Placeholder(b)]
  {
    assert [a, b][1..] == [b];
  }

  lemma ParseListStep(n: nat, tail: seq<Token>)
    ensures ParseList([Placeholder(n), Close] + tail) == Some(([n], tail))
    ensures ParseList(tail).Some? ==>
              ParseList([Placeholder(n), Comma] + tail) == Some(([n] + ParseList(tail).value.0, ParseList(tail).value.1))
  {
    assert ([Placeholder(n), Close] + tail)[2..] == tail;
    assert ([Placeholder(n), Comma] + tail)[2..] == tail;
  }

  lemma {:induction false} ParseRenderList(ps: seq<nat>, rest: seq<Token>)
    requires ps != []
    ensures ParseList(RenderList(ps) + [Close] + rest) == Some((ps, rest))
  {
    if |ps| == 1 {
      ParseListStep(ps[0], rest);
      assert RenderList(ps) + [Close] + rest == [Placeholder(ps[0]), Close] + rest;
      assert [ps[0]] == ps;
    } else {
      var tail := RenderList(ps[1..]) + [Close] + rest;
      ParseRenderList(ps[1..], rest);
      ParseListStep(ps[0], tail);
      assert RenderList(ps) + [Close] + rest == [Placeholder(ps[0]), Comma] + tail;
      assert [ps[0]] + ps[1..] == ps;
    }
  }

  lemma ParseRender(c: Condition, rest: seq<Token>)
    requires WellFormed(c)
    ensures ParseCondition(Render(c) + rest) == Some((c, rest))
  {
    var ts := Render(c) + rest;
    match c
    case AfterCursor(time, id) =>
      assert ts[1..] == RenderList([time, id]) + [Close] + rest;
      ParseRenderList([time, id], rest);
    case StateIn(values) =>
      assert ts[1..] == RenderList(values) + [Close] + rest;
      ParseRenderList(values, rest);
    case RetryDue(now) =>
      assert ts[1..] == RenderList([now]) + [Close] + rest;
      ParseRenderList([now], rest);
    case IsQueued => assert ts[1..] == rest;
    case _ => assert ts[2..] == rest;
  }

  lemma ParseConditionsStep(c: Condition, first: bool, tail: seq<Token>)
    requires WellFormed(c) && ParseConditions(tail, false).Some?
    ensures var (more, end) := ParseConditions(tail, false).value;
      ParseConditions([if first then WhereWord else AndWord] + (Render(c) + tail), first) == Some(([c] + more, end))
  {
    var ts := [if first then WhereWord else AndWord] + (Render(c) + tail);
    assert ts[1..] == Render(c) + tail;
    ParseRender(c, tail);
  }

  lemma Regroup(a: seq<Token>, b: seq<Token>, c: seq<Token>, d: seq<Token>)
    ensures a + b + c + d == a + (b + (c + d))
  {
  }

  lemma {:induction false} ParseRenderAll(conditions: seq<Condition>, first: bool, rest: seq<Token>)
    requires forall c :: c in conditions ==> WellFormed(c)
    requires rest != [] && rest[0] == OrderByLimit
    ensures ParseConditions(RenderAll(conditions, first) + rest, first) == Some((conditions, rest))
    decreases |conditions|
  {
    if conditions == [] {
      assert RenderAll(conditions, first) + rest == rest;
    } else {
      var tail := RenderAll(conditions[1..], false) + rest;
      ParseRenderAll(conditions[1..], false, rest);
      ParseConditionsStep(conditions[0], first, tail);
      Regroup([if first then WhereWord else AndWord], Render(conditions[0]), RenderAll(conditions[1..], false), rest);
      assert [conditions[0]] + conditions[1..] == conditions;
    }
  }

  lemma ParseSelect(conditions: seq<Condition>, limit: nat)
    requires forall c :: c in conditions ==> WellFormed(c)
    ensures Parse(RenderSelect(conditions, limit)) == Some(Select(conditions, limit))
  {
    var rest := [OrderByLimit, Placeholder(limit)];
    assert RenderSelect(conditions, limit)[1..] == RenderAll(conditions, true) + rest;
    ParseRenderAll(conditions, true, rest);
  }

  lemma {:induction false} RenderAllSnoc(conditions: seq<Condition>, c: Condition, first: bool)
    ensures RenderAll(conditions + [c], first)
         == RenderAll(conditions, first) + [if first && conditions == [] then WhereWord else AndWord] + Render(c)
    decreases |conditions|
  {
    if conditions == [] {
      assert RenderAll([c], first) == [if first then WhereWord else AndWord] + Render(c);
    } else {
      assert (conditions + [c])[1..] == conditions[1..] + [c];
      RenderAllSnoc(conditions[1..], c, false);
    }
  }

  // ---- binding values ----

  predicate Uses(c: Condition, bound: nat) {
    match c
    case AfterCursor(time, id) => 1 <= time <= bound && 1 <= id <= bound
    case CategoryIs(value) => 1 <= value <= bound
    case CorrelationIs(value) => 1 <= value <= bound
    case StateIn(values) => forall i :: 0 <= i < |values| ==> 1 <= values[i] <= bound
    case IsQueued => true
    case RetryDue(now) => 1 <= now <= bound
  }

  /** Binding more values changes no condition that is already complete. */
  lemma BindKeeps(c: Condition, params: seq<Value>, more: seq<Value>, key: string, row: Row)
    requires Uses(c, |params|)
    ensures Holds(c, params + more, key, row) <==> Holds(c, params, key, row)
  {
    assert forall n :: 1 <= n <= |params| ==> Param(params + more, n) == Param(params, n);
  }

  /** A statement under construction: its conditions, all bound and well-formed. */
  ghost predicate Building(b: Built, conditions: seq<Condition>) {
    && b.sql == [SelectFrom] + RenderAll(conditions, true)
    && (forall c :: c in conditions ==> WellFormed(c) && Uses(c, |b.params|))
  }

  lemma UsesMore(conditions: seq<Condition>, bound: nat, larger: nat)
    requires bound <= larger && forall c :: c in conditions ==> Uses(c, bound)
    ensures forall c :: c in conditions ==> Uses(c, larger)
  {
  }

  lemma Prefixed(a: seq<Token>, b: seq<Token>, c: seq<Token>, d: seq<Token>)
    ensures a + b + c + d == a + (b + c + d)
  {
  }

  /** Appends one condition and the values it uses. */
  lemma BuildingSnoc(b: Built, conditions: seq<Condition>, c: Condition, more: seq<Value>, sql: seq<Token>)
    requires Building(b, conditions) && WellFormed(c) && Uses(c, |b.params| + |more|)
    requires sql == b.sql + [if conditions == [] then WhereWord else AndWord] + Render(c)
    ensures Building(Built(sql, b.params + more), conditions + [c])
  {
    RenderAllSnoc(conditions, c, true);
    Prefixed([SelectFrom], RenderAll(conditions, true), [if conditions == [] then WhereWord else AndWord], Render(c));
    UsesMore(conditions, |b.params|, |b.params + more|);
  }

  lemma WhereSnoc(conditions: seq<Condition>, c: Condition, params: seq<Value>, more: seq<Value>, key: string, row: Row)
    requires forall d :: d in conditions ==> Uses(d, |params|)
    ensures Where(conditions + [c], params + more, key, row)
       <==> Where(conditions, params, key, row) && Holds(c, params + more, key, row)
  {
    forall i | 0 <= i < |conditions|
      ensures Holds(conditions[i], params + more, key, row) <==> Holds(conditions[i], params, key, row)
    {
      assert conditions[i] in conditions;
      BindKeeps(conditions[i], params, more, key, row);
    }
    var all := conditions + [c];
    assert all[|conditions|] == c && forall i :: 0 <= i < |conditions| ==> all[i] == conditions[i];
  }

  // ---- which tasks a statement asks for ----

  datatype Wanted = History(query: Query) | ReadyAt(after: Option<Key>, now: nat)

  predicate Wants(w: Wanted, task: StoredTask, key: Key) {
    match w
    case History(q) => Matches(task, q) && After(q.after, key)
    case ReadyAt(after, now) => IsReady(task, now) && After(after, key)
  }

  /** On every well-formed row, the conditions hold exactly if the task is wanted. */
  ghost predicate Selects(conditions: seq<Condition>, params: seq<Value>, w: Wanted) {
    forall id: TaskId, row: Row :: RowOk(row) ==> SelectsRow(conditions, params, w, id, row)
  }

  predicate SelectsRow(conditions: seq<Condition>, params: seq<Value>, w: Wanted, id: TaskId, row: Row) {
    Where(conditions, params, Padded(id), row) <==> Wants(w, TaskOf(row), Key(row.acceptedAt, id))
  }

  /** The added condition is the difference between the two requests. */
  ghost predicate Narrows(c: Condition, params: seq<Value>, w: Wanted, narrower: Wanted) {
    forall id: TaskId, row: Row :: RowOk(row) ==> NarrowsRow(c, params, w, narrower, id, row)
  }

  predicate NarrowsRow(c: Condition, params: seq<Value>, w: Wanted, narrower: Wanted, id: TaskId, row: Row) {
    Wants(narrower, TaskOf(row), Key(row.acceptedAt, id))
    <==> Wants(w, TaskOf(row), Key(row.acceptedAt, id)) && Holds(c, params, Padded(id), row)
  }

  lemma SelectsSnoc(conditions: seq<Condition>, c: Condition, params: seq<Value>, more: seq<Value>, w: Wanted, narrower: Wanted)
    requires forall d :: d in conditions ==> Uses(d, |params|)
    requires Selects(conditions, params, w) && Narrows(c, params + more, w, narrower)
    ensures Selects(conditions + [c], params + more, narrower)
  {
    forall id: TaskId, row: Row | RowOk(row) ensures SelectsRow(conditions + [c], params + more, narrower, id, row) {
      WhereSnoc(conditions, c, params, more, Padded(id), row);
      assert SelectsRow(conditions, params, w, id, row) && NarrowsRow(c, params + more, w, narrower, id, row);
    }
  }

  /** The text comparison of padded ids is the numeric comparison. */
  lemma CursorHolds(params: seq<Value>, cursor: Key, id: TaskId, row: Row)
    ensures var n := |params|;
      Holds(AfterCursor(n + 1, n + 2), params + [Integer(cursor.at), Text(Padded(cursor.id))], Padded(id), row)
      <==> After(Some(cursor), Key(row.acceptedAt, id))
  {
    PaddedOrder(cursor.id, id);
    var all := params + [Integer(cursor.at), Text(Padded(cursor.id))];
    assert all[|params|] == Integer(cursor.at) && all[|params| + 1] == Text(Padded(cursor.id));
  }

  predicate AddsCursor(w: Wanted, cursor: Key, narrower: Wanted) {
    || (w.History? && w.query.after.None? && narrower == History(w.query.(after := Some(cursor))))
    || (w.ReadyAt? && w.after.None? && narrower == w.(after := Some(cursor)))
  }

  lemma CursorNarrows(params: seq<Value>, cursor: Key, w: Wanted, narrower: Wanted)
    requires AddsCursor(w, cursor, narrower)
    ensures Narrows(AfterCursor(|params| + 1, |params| + 2), params + [Integer(cursor.at), Text(Padded(cursor.id))], w, narrower)
  {
    var c, all := AfterCursor(|params| + 1, |params| + 2), params + [Integer(cursor.at), Text(Padded(cursor.id))];
    forall id: TaskId, row: Row | RowOk(row) ensures NarrowsRow(c, all, w, narrower, id, row) {
      CursorHolds(params, cursor, id, row);
    }
  }

  function KindTexts(kinds: seq<TaskStateKind>): seq<Value> {
    seq(|kinds|, i requires 0 <= i < |kinds| => Text(kinds[i].AsStr()))
  }

  function Numbers(from: nat, count: nat): seq<nat> {
    seq(count, i => from + 1 + i)
  }

  lemma StatesHold(params: seq<Value>, kinds: seq<TaskStateKind>, key: string, row: Row)
    requires Agrees(row)
    ensures Holds(StateIn(Numbers(|params|, |kinds|)), params + KindTexts(kinds), key, row)
       <==> row.life.state.Kind() in kinds
  {
    var all, values := params + KindTexts(kinds), Numbers(|params|, |kinds|);
    forall i | 0 <= i < |kinds|
      ensures Param(all, values[i]) == Some(Text(row.stateKind)) <==> kinds[i] == row.life.state.Kind()
    {
      assert all[|params| + i] == Text(kinds[i].AsStr());
      KindTextInjective(kinds[i], row.life.state.Kind());
    }
    if row.life.state.Kind() in kinds {
      var i :| 0 <= i < |kinds| && kinds[i] == row.life.state.Kind();
      assert Param(all, values[i]) == Some(Text(row.stateKind));
    }
  }

  lemma StatesNarrow(params: seq<Value>, kinds: seq<TaskStateKind>, states: seq<TaskStateKind>, q: Query)
    requires q.states == [] && kinds != [] && forall k :: k in kinds <==> k in states
    ensures Narrows(StateIn(Numbers(|params|, |kinds|)), params + KindTexts(kinds), History(q), History(q.(states := states)))
  {
    var c, all := StateIn(Numbers(|params|, |kinds|)), params + KindTexts(kinds);
    assert kinds[0] in states;
    forall id: TaskId, row: Row | RowOk(row) ensures NarrowsRow(c, all, History(q), History(q.(states := states)), id, row) {
      StatesHold(params, kinds, Padded(id), row);
    }
  }

  function AllHistory(limit: nat): Query {
    Query([], None, None, None, limit)
  }

  /** A statement being written: its text, its bound values and whether it has a predicate yet. */
  class Statement {
    var sql: seq<Token>
    var params: seq<Value>
    var hasPredicate: bool
    ghost var conditions: seq<Condition>
    ghost var wanted: Wanted

    ghost predicate Valid()
      reads this
    {
      && Building(Built(sql, params), conditions)
      && (hasPredicate <==> conditions != [])
      && Selects(conditions, params, wanted)
    }

    constructor (ghost limit: nat)
      ensures Valid() && conditions == [] && wanted == History(AllHistory(limit))
    {
      sql, params, hasPredicate, conditions, wanted := [SelectFrom], [], false, [], History(AllHistory(limit));
    }

    /** Stores a value and returns its placeholder. */
    method BindValue(value: Value) returns (placeholder: Token)
      modifies this`params
      ensures params == old(params) + [value] && placeholder == Placeholder(|params|)
    {
      params := params + [value];
      placeholder := Placeholder(|params|);
    }

    method AppendPredicate(fragment: Token)
      modifies this`sql, this`hasPredicate
      ensures sql == old(sql) + [if old(hasPredicate) then AndWord else WhereWord, fragment] && hasPredicate
    {
      sql := sql + [if hasPredicate then AndWord else WhereWord, fragment];
      hasPredicate := true;
    }

    /** Called when the text and values of one more condition have been written. */
    ghost method Complete(b: Built, c: Condition, more: seq<Value>, narrower: Wanted)
      requires Building(b, conditions) && Selects(conditions, b.params, wanted)
      requires WellFormed(c) && Uses(c, |b.params| + |more|)
      requires params == b.params + more && hasPredicate
      requires sql == b.sql + [if conditions == [] then WhereWord else AndWord] + Render(c)
      requires Narrows(c, params, wanted, narrower)
      modifies this`conditions, this`wanted
      ensures Valid() && conditions == old(conditions) + [c] && wanted == narrower
    {
      BuildingSnoc(b, conditions, c, more, sql);
      SelectsSnoc(conditions, c, b.params, more, wanted, narrower);
      conditions := conditions + [c];
      wanted := narrower;
    }

    method AddCursor(cursor: Key, ghost narrower: Wanted)
      requires Valid()
      requires AddsCursor(wanted, cursor, narrower)
      modifies this
      ensures Valid() && wanted == narrower
    {
      ghost var b := Built(sql, params);
      var time := BindValue(Integer(cursor.at));
      var id := BindValue(Text(Padded(cursor.id)));
      AppendPredicate(CursorOpen);
      sql := sql + [time, Comma, id, Close];
      ghost var c := AfterCursor(|b.params| + 1, |b.params| + 2);
      ghost var more := [Integer(cursor.at), Text(Padded(cursor.id))];
      assert params == b.params + more;
      RenderPair(c.time, c.id);
      CursorNarrows(b.params, cursor, wanted, narrower);
      Complete(b, c, more, narrower);
    }

    method AddCategory(category: string)
      requires Valid() && wanted.History? && wanted.query.category.None?
      modifies this
      ensures Valid() && wanted == History(old(wanted).query.(category := Some(category)))
    {
      ghost var b := Built(sql, params);
      AppendPredicate(CategoryEquals);
      var value := BindValue(Text(category));
      sql := sql + [value];
      Complete(b, CategoryIs(|params|), [Text(category)], History(wanted.query.(category := Some(category))));
    }

    method AddCorrelation(correlationKey: string)
      requires Valid() && wanted.History? && wanted.query.correlationKey.None?
      modifies this
      ensures Valid() && wanted == History(old(wanted).query.(correlationKey := Some(correlationKey)))
    {
      ghost var b := Built(sql, params);
      AppendPredicate(CorrelationEquals);
      var value := BindValue(Text(correlationKey));
      sql := sql + [value];
      Complete(b, CorrelationIs(|params|), [Text(correlationKey)],
               History(wanted.query.(correlationKey := Some(correlationKey))));
    }

    /** Writes the comma-separated placeholders of a state list. */
    method WriteKinds(kinds: seq<TaskStateKind>)
      requires kinds != []
      modifies this`sql, this`params
      ensures params == old(params) + KindTexts(kinds)
      ensures sql == old(sql) + RenderList(Numbers(|old(params)|, |kinds|))
    {
      var index := 0;
      ghost var from := |params|;
      while index < |kinds|
        invariant 0 <= index <= |kinds|
        invariant params == old(params) + KindTexts(kinds[..index])
        invariant sql == old(sql) + RenderList(Numbers(from, index))
      {
        if index != 0 {
          RenderListSnoc(Numbers(from, index), from + 1 + index);
          sql := sql + [Comma];
        }
        var value := BindValue(Text(kinds[index].AsStr()));
        sql := sql + [value];
        assert Numbers(from, index + 1) == Numbers(from, index) + [from + 1 + index];
        assert KindTexts(kinds[..index + 1]) == KindTexts(kinds[..index]) + [Text(kinds[index].AsStr())];
        index := index + 1;
      }
      assert kinds[..index] == kinds;
    }

    method AddStates(kinds: seq<TaskStateKind>, ghost states: seq<TaskStateKind>)
      requires Valid() && wanted.History? && wanted.query.states == []
      requires kinds != [] && forall k :: k in kinds <==> k in states
      modifies this
      ensures Valid() && wanted == History(old(wanted).query.(states := states))
    {
      ghost var b := Built(sql, params);
      AppendPredicate(StateInOpen);
      WriteKinds(kinds);
      sql := sql + [Close];
      ghost var c := StateIn(Numbers(|b.params|, |kinds|));
      ghost var narrower := History(wanted.query.(states := states));
      StatesNarrow(b.params, kinds, states, wanted.query);
      Complete(b, c, KindTexts(kinds), narrower);
    }

    /** The fixed filter of the ready queue: queued, and no retry deadline after `now`. */
    method AddReady(now: nat)
      requires Valid() && conditions == [] && wanted == History(AllHistory(0))
      modifies this
      ensures Valid() && wanted == ReadyAt(None, now)
    {
      ghost var b := Built(sql, params);
      AppendPredicate(StateIsQueued);
      ghost var queued := History(AllHistory(0).(states := [QueuedKind]));
      forall id: TaskId, row: Row | RowOk(row) ensures NarrowsRow(IsQueued, params, wanted, queued, id, row) {
        KindTextInjective(row.life.state.Kind(), QueuedKind);
      }
      Complete(b, IsQueued, [], queued);
      b := Built(sql, params);
      AppendPredicate(RetryDueOpen);
      var value := BindValue(Integer(now));
      sql := sql + [value, Close];
      Complete(b, RetryDue(|params|), [Integer(now)], ReadyAt(None, now));
    }

    /** Ends the statement: it parses, its limit is bound, and it asks for exactly the wanted tasks. */
    method Finish(fetch: nat) returns (built: Built)
      requires Valid()
      modifies this`sql, this`params
      ensures Asks(built, fetch, wanted)
    {
      ghost var before := params;
      var limit := BindValue(Integer(fetch));
      sql := sql + [OrderByLimit, limit];
      ParseSelect(conditions, |params|);
      assert sql == RenderSelect(conditions, |params|);
      SelectsMore(conditions, before, [Integer(fetch)], wanted);
      built := Built(sql, params);
    }
  }

  lemma SelectsMore(conditions: seq<Condition>, params: seq<Value>, more: seq<Value>, w: Wanted)
    requires Selects(conditions, params, w) && forall c :: c in conditions ==> Uses(c, |params|)
    ensures Selects(conditions, params + more, w)
  {
    forall id: TaskId, row: Row | RowOk(row) ensures SelectsRow(conditions, params + more, w, id, row) {
      assert SelectsRow(conditions, params, w, id, row);
      forall i | 0 <= i < |conditions|
        ensures Holds(conditions[i], params + more, Padded(id), row) <==> Holds(conditions[i], params, Padded(id), row)
      {
        assert conditions[i] in conditions;
        BindKeeps(conditions[i], params, more, Padded(id), row);
      }
    }
  }

  /** The finished text and values ask for the first `fetch` of exactly the wanted tasks. */
  ghost predicate Asks(b: Built, fetch: nat, w: Wanted) {
    && Parse(b.sql).Some?
    && Param(b.params, Parse(b.sql).value.limit) == Some(Integer(fetch))
    && Selects(Parse(b.sql).value.conditions, b.params, w)
  }

  /** Drops repeated states, keeping the first of each. */
  method Distinct(states: seq<TaskStateKind>) returns (r: seq<TaskStateKind>)
    ensures forall k :: k in r <==> k in states
    ensures forall i, j :: 0 <= i < j < |r| ==> r[i] != r[j]
    ensures r == [] <==> states == []
  {
    r := [];
    for i := 0 to |states|
      invariant forall k :: k in r <==> k in states[..i]
      invariant forall i, j :: 0 <= i < j < |r| ==> r[i] != r[j]
      invariant r == [] <==> i == 0
    {
      if states[i] !in r {
        r := r + [states[i]];
      }
    }
  }

  method BuildHistoryQuery(q: Query, pageSize: nat) returns (r: StoreResult<Built>)
    ensures r == Err(InvalidRequest) <==> pageSize + 1 > I64_MAX || (q.after.Some? && q.after.value.at > I64_MAX)
    ensures r.Err? ==> r == Err(InvalidRequest)
    ensures r.Ok? ==> Asks(r.value, pageSize + 1, History(q))
  {
    if pageSize + 1 > I64_MAX {
      return Err(InvalidRequest);
    }
    var statement := new Statement(q.limit);
    if q.after.Some? {
      if q.after.value.at > I64_MAX {
        return Err(InvalidRequest);
      }
      statement.AddCursor(q.after.value, History(AllHistory(q.limit).(after := q.after)));
    }
    if q.category.Some? {
      statement.AddCategory(q.category.value);
    }
    if q.correlationKey.Some? {
      statement.AddCorrelation(q.correlationKey.value);
    }
    var states := Distinct(q.states);
    if states != [] {
      statement.AddStates(states, q.states);
    }
    var built := statement.Finish(pageSize + 1);
    r := Ok(built);
  }

  method BuildReadyQuery(after: Option<Key>, limit: nat, now: nat) returns (r: StoreResult<Built>)
    ensures r == Err(InvalidRequest) <==>
              limit + 1 > I64_MAX || now > I64_MAX || (after.Some? && after.value.at > I64_MAX)
    ensures r.Err? ==> r == Err(InvalidRequest)
    ensures r.Ok? ==> Asks(r.value, limit + 1, ReadyAt(after, now))
  {
    if now > I64_MAX || limit + 1 > I64_MAX {
      return Err(InvalidRequest);
    }
    var statement := new Statement(0);
    statement.AddReady(now);
    if after.Some? {
      if after.value.at > I64_MAX {
        return Err(InvalidRequest);
      }
      statement.AddCursor(after.value, ReadyAt(after, now));
    }
    var built := statement.Finish(limit + 1);
    r := Ok(built);
  }
}
