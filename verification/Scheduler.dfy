/**
 The ready-queue scan and its fairness anchor. Everything the scan observes from
 outside (the store's answer when a page is read, the in-flight count at each check,
 handler eligibility, resource and start outcomes) is given by `views`; the
 scheduler's own decisions are the methods of `Scheduler`.
 */
module Schedulers {
  import opened TaskStates
  import opened Keysets

  datatype Reservation = Granted | TemporarilyUnavailable | Refused

  datatype StartOutcome = Begun | Lost | StoreFails

  /** What is observed while one record is handled. */
  datatype RecordView = RecordView(
    full: bool,                 // in-flight limit reached at the check before the record
    eligible: bool,
    reservation: Reservation,
    shuttingDown: bool,         // at the check under the admission lock
    start: StartOutcome)

  /** What is observed while one page is handled. */
  datatype PageView = PageView(
    stopBefore: bool,           // shutdown, fault or in-flight limit before the page is read
    readFails: bool,
    ready: set<Key>,            // ready tasks when the page is read
    page: Page,                 // what the store answers
    record: nat -> RecordView,
    stopAfter: bool)            // shutdown or in-flight limit after the page

  datatype Fairness = Fairness(anchor: Option<Key>, bypasses: nat)

  const NO_ANCHOR := Fairness(None, 0)

  // ---- what the log of a scheduler means ----

  datatype Note = Anchored(key: Key) | Launched(key: Key) | Reset

  /** Replays anchoring and launches. */
  function Track(log: seq<Note>): (r: Fairness)
    ensures r.anchor.None? ==> r.bypasses == 0
  {
    if log == [] then NO_ANCHOR
    else
      var f := Track(log[..|log| - 1]);
      match log[|log| - 1]
      case Anchored(key) => Fairness(Some(key), 0)
      case Reset => NO_ANCHOR
      case Launched(key) =>
        if f.anchor.None? || Less(key, f.anchor.value) then f
        else if key == f.anchor.value then NO_ANCHOR
        else f.(bypasses := f.bypasses + 1)
  }

  /** An anchor is set only when there is none, and no launch passes it once the limit is used up. */
  predicate BypassOk(log: seq<Note>, max: nat) {
    log == []
    || (var before, last := log[..|log| - 1], log[|log| - 1];
        BypassOk(before, max) && MayFollow(Track(before), last, max))
  }

  predicate MayFollow(f: Fairness, note: Note, max: nat) {
    match note
    case Anchored(_) => f.anchor.None?
    case Launched(key) => MayLaunch(f, key, max)
    case Reset => true
  }

  predicate MayLaunch(f: Fairness, key: Key, max: nat) {
    f.anchor.Some? && Less(f.anchor.value, key) ==> f.bypasses < max
  }

  lemma TrackSnoc(log: seq<Note>, note: Note, max: nat)
    requires BypassOk(log, max)
    requires MayFollow(Track(log), note, max)
    ensures BypassOk(log + [note], max)
    ensures (log + [note])[..|log|] == log
  {
  }

  lemma {:induction false} BypassAt(log: seq<Note>, max: nat, i: nat)
    requires BypassOk(log, max) && i < |log|
    ensures MayFollow(Track(log[..i]), log[i], max)
  {
    if i < |log| - 1 {
      BypassAt(log[..|log| - 1], max, i);
      assert log[..|log| - 1][..i] == log[..i];
    }
  }

  /** Launches of tasks behind `anchor`. */
  function LargerLaunches(log: seq<Note>, anchor: Key): nat {
    if log == [] then 0
    else LargerLaunches(log[..|log| - 1], anchor)
         + (if log[|log| - 1].Launched? && Less(anchor, log[|log| - 1].key) then 1 else 0)
  }

  /** `anchor` is set at `i` and neither launched nor reset before `j`. */
  ghost predicate AnchoredFrom(log: seq<Note>, i: nat, j: nat, anchor: Key) {
    && i < j <= |log| && log[i] == Anchored(anchor)
    && forall k :: i < k < j ==> log[k] != Launched(anchor) && !log[k].Reset?
  }

  lemma LargerStep(log: seq<Note>, i: nat, j: nat, anchor: Key)
    requires i < j < |log|
    ensures LargerLaunches(log[i + 1..j + 1], anchor)
         == LargerLaunches(log[i + 1..j], anchor) + (if log[j].Launched? && Less(anchor, log[j].key) then 1 else 0)
  {
    var since := log[i + 1..j + 1];
    assert since[..|since| - 1] == log[i + 1..j];
  }

  lemma TrackStep(log: seq<Note>, j: nat)
    requires j < |log| && log[j].Launched? && Track(log[..j]).anchor.Some? && log[j].key != Track(log[..j]).anchor.value
    ensures var f := Track(log[..j]);
      Track(log[..j + 1]) == if Less(f.anchor.value, log[j].key) then f.(bypasses := f.bypasses + 1) else f
  {
    assert log[..j + 1][..j] == log[..j];
  }

  lemma {:induction false} TrackCounts(log: seq<Note>, max: nat, i: nat, j: nat, anchor: Key)
    requires BypassOk(log, max) && AnchoredFrom(log, i, j, anchor)
    ensures Track(log[..j]) == Fairness(Some(anchor), LargerLaunches(log[i + 1..j], anchor))
    decreases j
  {
    if j == i + 1 {
      assert log[..j][..i] == log[..i] && log[i + 1..j] == [];
    } else {
      TrackCounts(log, max, i, j - 1, anchor);
      LargerStep(log, i, j - 1, anchor);
      BypassAt(log, max, j - 1);
      TrackStep(log, j - 1);
    }
  }

  /**
   Bounded bypass: from when a task is anchored until it is launched or forgotten,
   at most `max` tasks behind it are launched, and once there were `max`, whatever
   is launched next is not behind it.
   */
  lemma {:induction false} BoundedBypass(log: seq<Note>, max: nat, i: nat, j: nat, anchor: Key)
    requires BypassOk(log, max) && AnchoredFrom(log, i, j, anchor)
    ensures LargerLaunches(log[i + 1..j], anchor) <= max
    ensures LargerLaunches(log[i + 1..j], anchor) == max && j < |log| && log[j].Launched? ==> !Less(anchor, log[j].key)
    decreases j
  {
    TrackCounts(log, max, i, j, anchor);
    if j < |log| && log[j].Launched? {
      BypassAt(log, max, j);
    }
    if j == i + 1 {
      assert log[i + 1..j] == [];
    } else {
      BoundedBypass(log, max, i, j - 1, anchor);
      LargerStep(log, i, j - 1, anchor);
    }
  }

  // ---- which records a scan looks at ----

  /** From record `j` on the page looks at `key` before it sees the in-flight limit. */
  predicate Looks(keys: seq<Key>, view: PageView, j: nat, key: Key)
    requires j <= |keys|
    decreases |keys| - j
  {
    j < |keys| && !view.record(j).full && (keys[j] == key || Looks(keys, view, j + 1, key))
  }

  /** From page `i` on a scan that reads every page to which it is led looks at `key`. */
  predicate Sees(views: seq<PageView>, i: nat, key: Key)
    requires i <= |views|
    decreases |views| - i
  {
    i < |views|
    && (Looks(views[i].page.keys, views[i], 0, key) || (views[i].page.next.Some? && Sees(views, i + 1, key)))
  }

  /** From page `i` on nothing stops or breaks the scan, and it reaches a last page. */
  predicate Calm(views: seq<PageView>, i: nat)
    requires i <= |views|
    decreases |views| - i
  {
    i < |views| && Quiet(views[i]) && (views[i].page.next.None? || Calm(views, i + 1))
  }

  predicate Quiet(view: PageView) {
    && !view.stopBefore && !view.readFails && !view.stopAfter
    && forall j :: 0 <= j < |view.page.keys| ==> !Breaks(view.record(j))
  }

  /** Shutdown or a store failure is met at this record. */
  predicate Breaks(view: RecordView) {
    view.shuttingDown || view.start.StoreFails?
  }

  /** From page `i` on the pages lead to one without continuation. */
  predicate LeadsToLast(views: seq<PageView>, i: nat)
    requires i <= |views|
    decreases |views| - i
  {
    i < |views| && (views[i].page.next.None? || LeadsToLast(views, i + 1))
  }

  /** In no page from `i` on was the in-flight limit seen between two records and gone after the page. */
  predicate Uncut(views: seq<PageView>, i: nat)
    requires i <= |views|
    decreases |views| - i
  {
    i == |views|
    || (&& (forall j :: 0 <= j < |views[i].page.keys| ==> !views[i].record(j).full)
        && (views[i].page.next.None? || Uncut(views, i + 1)))
  }

  /** From page `i` on the store answers each request with the next page of what is ready then. */
  predicate Answered(views: seq<PageView>, i: nat, after: Option<Key>, size: nat)
    requires size >= 1 && i <= |views|
    decreases |views| - i
  {
    i == |views|
    || (&& views[i].page == PageOf(views[i].ready, after, size)
        && (views[i].page.next.None? || Answered(views, i + 1, views[i].page.next, size)))
  }

  /** The task is ready whenever, from page `i` on, a page is read. */
  predicate ReadyThroughout(views: seq<PageView>, i: nat, key: Key)
    requires i <= |views|
    decreases |views| - i
  {
    i == |views| || (key in views[i].ready && (views[i].page.next.None? || ReadyThroughout(views, i + 1, key)))
  }

  lemma PageHoldsOrLeads(ready: set<Key>, after: Option<Key>, size: nat, key: Key)
    requires size >= 1 && key in ready && After(after, key)
    ensures var page := PageOf(ready, after, size); key in page.keys || (page.next.Some? && After(page.next, key))
  {
    PageSplits(ready, after, size);
    assert key in Remaining(ready, after);
  }

  lemma {:induction false} UncutPageLooks(keys: seq<Key>, view: PageView, j: nat, i: nat)
    requires j <= i < |keys| && forall k :: 0 <= k < |keys| ==> !view.record(k).full
    ensures Looks(keys, view, j, keys[i])
    decreases i - j
  {
    if j < i {
      UncutPageLooks(keys, view, j + 1, i);
    }
  }

  /** An uncut scan of all pages looks at every task that was ready whenever a page was read. */
  lemma {:induction false} UncutSeesReady(views: seq<PageView>, i: nat, after: Option<Key>, size: nat, key: Key)
    requires size >= 1 && i <= |views| && Answered(views, i, after, size)
    requires LeadsToLast(views, i) && Uncut(views, i) && ReadyThroughout(views, i, key) && After(after, key)
    ensures Sees(views, i, key)
    decreases |views| - i
  {
    var page := views[i].page;
    PageHoldsOrLeads(views[i].ready, after, size, key);
    if key in page.keys {
      var at :| 0 <= at < |page.keys| && page.keys[at] == key;
      UncutPageLooks(page.keys, views[i], 0, at);
    } else {
      UncutSeesReady(views, i + 1, page.next, size, key);
    }
  }

  function BusyRecord(): RecordView {
    RecordView(true, true, Granted, false, Begun)
  }

  /** One page with the task, during which a handler ends. */
  function CutScan(key: Key): seq<PageView> {
    [PageView(false, false, {key}, Page([key], None), _ => BusyRecord(), false)]
  }

  /** A handler ends between the check inside a page and the check after it: the scan completes without its anchor. */
  lemma CutScanMissesReady(size: nat, key: Key)
    requires size >= 1
    ensures var views := CutScan(key);
      && Answered(views, 0, None, size) && Calm(views, 0) && LeadsToLast(views, 0)
      && ReadyThroughout(views, 0, key) && !Sees(views, 0, key)
  {
    assert Remaining({key}, None) == {key};
    SortedUnique(SortKeys({key}), [key]);
  }

  /** A scan of all pages always sees a task that stayed ready exactly if no page is cut. */
  lemma SeesReadyIff(size: nat, key: Key, mayCut: bool)
    requires size >= 1
    ensures !mayCut <==>
      forall views ::
        && Answered(views, 0, None, size) && LeadsToLast(views, 0)
        && (mayCut || Uncut(views, 0))
        && ReadyThroughout(views, 0, key) ==>
          Sees(views, 0, key)
  {
    if mayCut {
      CutScanMissesReady(size, key);
    } else {
      forall views | Answered(views, 0, None, size) && LeadsToLast(views, 0) && Uncut(views, 0) && ReadyThroughout(views, 0, key)
        ensures Sees(views, 0, key)
      {
        UncutSeesReady(views, 0, None, size, key);
      }
    }
  }

  // ---- what a scan does to the log ----

  datatype Flow = Onward | Stop | Fail

  datatype PageEnd = Halted | Broken | Done(next: Option<Key>)

  datatype PageTrace = PageTrace(log: seq<Note>, flow: Flow)

  datatype RoundTrace = RoundTrace(log: seq<Note>, end: PageEnd)

  datatype ScanTrace = ScanTrace(log: seq<Note>, failed: bool, completed: bool)

  /** Resources are there and the anchor does not stand in the way. */
  predicate Tries(f: Fairness, key: Key, view: RecordView, max: nat) {
    view.eligible && view.reservation.Granted? && MayLaunch(f, key, max)
  }

  predicate Anchors(f: Fairness, view: RecordView) {
    view.eligible && view.reservation.TemporarilyUnavailable? && f.anchor.None?
  }

  predicate Launches(f: Fairness, key: Key, view: RecordView, max: nat) {
    Tries(f, key, view, max) && !view.shuttingDown && view.start.Begun?
  }

  /**
   The start of this record is attempted: its handler exists, it got its resources, it
   does not pass an anchor whose bypasses are used up, and the service is not stopping.
   */
  predicate Attempts(f: Fairness, key: Key, view: RecordView, max: nat) {
    && view.eligible && view.reservation.Granted? && !view.shuttingDown
    && !(f.anchor.Some? && f.bypasses >= max && Less(f.anchor.value, key))
  }

  /** The start of this record is attempted and the store begins it. */
  predicate Begins(f: Fairness, key: Key, view: RecordView, max: nat) {
    Attempts(f, key, view, max) && view.start.Begun?
  }

  /** The log after one record. */
  function AfterRecord(log: seq<Note>, key: Key, view: RecordView, max: nat): seq<Note> {
    if Anchors(Track(log), view) then log + [Anchored(key)]
    else if Launches(Track(log), key, view, max) then log + [Launched(key)]
    else log
  }

  function RecordFlow(log: seq<Note>, key: Key, view: RecordView, max: nat): Flow {
    if !Tries(Track(log), key, view, max) then Onward
    else if view.shuttingDown then Stop
    else if view.start.StoreFails? then Fail
    else Onward
  }

  /** Records `j` and on of one page, in order. */
  function TracePage(log: seq<Note>, keys: seq<Key>, view: PageView, j: nat, max: nat): PageTrace
    requires j <= |keys|
    decreases |keys| - j
  {
    if j == |keys| || view.record(j).full then PageTrace(log, Onward)
    else
      var next := AfterRecord(log, keys[j], view.record(j), max);
      var flow := RecordFlow(log, keys[j], view.record(j), max);
      if flow.Onward? then TracePage(next, keys, view, j + 1, max) else PageTrace(next, flow)
  }

  /** One page and the checks around it. */
  function TraceRound(log: seq<Note>, view: PageView, max: nat): RoundTrace {
    if view.stopBefore then RoundTrace(log, Halted)
    else if view.readFails then RoundTrace(log, Broken)
    else
      var traced := TracePage(log, view.page.keys, view, 0, max);
      if traced.flow.Fail? then RoundTrace(traced.log, Broken)
      else if traced.flow.Stop? || view.stopAfter then RoundTrace(traced.log, Halted)
      else RoundTrace(traced.log, Done(view.page.next))
  }

  /** Pages `i` and on of one scan. */
  function TraceScan(log: seq<Note>, views: seq<PageView>, i: nat, max: nat): ScanTrace
    requires i <= |views|
    decreases |views| - i
  {
    if i == |views| then ScanTrace(log, false, false)
    else
      var round := TraceRound(log, views[i], max);
      if !round.end.Done? then ScanTrace(round.log, round.end.Broken?, false)
      else if round.end.next.None? then ScanTrace(round.log, false, true)
      else TraceScan(round.log, views, i + 1, max)
  }

  /** The scan looks at every page without meeting its anchor. */
  predicate Misses(views: seq<PageView>, anchor: Option<Key>)
  {
    anchor.Some? && !Sees(views, 0, anchor.value)
  }

  /** The log after one scan that did not fail. */
  function AfterScan(log: seq<Note>, views: seq<PageView>, max: nat): seq<Note>
  {
    var scan := TraceScan(log, views, 0, max);
    if scan.completed && Misses(views, Track(log).anchor) then scan.log + [Reset] else scan.log
  }

  /** Scans `k` and on: a completed scan that missed its anchor forgets it, a failed one ends the loop. */
  function TraceLoop(log: seq<Note>, scans: seq<seq<PageView>>, k: nat, max: nat): seq<Note>
    requires k <= |scans|
    decreases |scans| - k
  {
    if k == |scans| then log
    else
      var scan := TraceScan(log, scans[k], 0, max);
      if scan.failed then scan.log else TraceLoop(AfterScan(log, scans[k], max), scans, k + 1, max)
  }

  /** `more` continues `log` without forgetting the anchor. */
  ghost predicate Extends(log: seq<Note>, more: seq<Note>) {
    log <= more && forall p :: |log| <= p < |more| ==> !more[p].Reset?
  }

  lemma ExtendsFurther(a: seq<Note>, b: seq<Note>, c: seq<Note>)
    requires Extends(a, b) && Extends(b, c)
    ensures Extends(a, c)
  {
    forall p | |a| <= p < |c| ensures !c[p].Reset? {
      assert p < |b| ==> c[p] == b[p];
    }
  }

  lemma {:induction false} PageExtends(log: seq<Note>, keys: seq<Key>, view: PageView, j: nat, max: nat)
    requires j <= |keys|
    ensures Extends(log, TracePage(log, keys, view, j, max).log)
    decreases |keys| - j
  {
    if j < |keys| && !view.record(j).full {
      var next := AfterRecord(log, keys[j], view.record(j), max);
      assert Extends(log, next);
      PageExtends(next, keys, view, j + 1, max);
      ExtendsFurther(log, next, TracePage(next, keys, view, j + 1, max).log);
    }
  }

  lemma RoundExtends(log: seq<Note>, view: PageView, max: nat)
    ensures Extends(log, TraceRound(log, view, max).log)
  {
    PageExtends(log, view.page.keys, view, 0, max);
  }

  lemma {:induction false} ScanExtends(log: seq<Note>, views: seq<PageView>, i: nat, max: nat)
    requires i <= |views|
    ensures Extends(log, TraceScan(log, views, i, max).log)
    decreases |views| - i
  {
    if i < |views| {
      var round := TraceRound(log, views[i], max);
      RoundExtends(log, views[i], max);
      if round.end.Done? {
        ScanExtends(round.log, views, i + 1, max);
        ExtendsFurther(log, round.log, TraceScan(round.log, views, i + 1, max).log);
      }
    }
  }

  lemma {:induction false} CompletedLeads(log: seq<Note>, views: seq<PageView>, i: nat, max: nat)
    requires i <= |views| && TraceScan(log, views, i, max).completed
    ensures LeadsToLast(views, i)
    decreases |views| - i
  {
    var round := TraceRound(log, views[i], max);
    if round.end.next.Some? {
      CompletedLeads(round.log, views, i + 1, max);
    }
  }

  /** Nothing breaks a page whose records meet neither shutdown nor a store failure. */
  lemma {:induction false} QuietPage(log: seq<Note>, keys: seq<Key>, view: PageView, j: nat, max: nat)
    requires j <= |keys| && forall i :: j <= i < |keys| ==> !Breaks(view.record(i))
    ensures TracePage(log, keys, view, j, max).flow.Onward?
    decreases |keys| - j
  {
    if j < |keys| && !view.record(j).full {
      assert !Breaks(view.record(j));
      QuietPage(AfterRecord(log, keys[j], view.record(j), max), keys, view, j + 1, max);
    }
  }

  lemma {:induction false} CalmCompletes(log: seq<Note>, views: seq<PageView>, i: nat, max: nat)
    requires i <= |views| && Calm(views, i)
    ensures TraceScan(log, views, i, max).completed
    decreases |views| - i
  {
    var page := views[i].page;
    QuietPage(log, page.keys, views[i], 0, max);
    var round := TraceRound(log, views[i], max);
    if page.next.Some? {
      CalmCompletes(round.log, views, i + 1, max);
    }
  }

  /** A completed scan that missed its anchor and was not cut: the anchor was not ready when some page was read. */
  lemma MissedHasLeft(log: seq<Note>, views: seq<PageView>, size: nat, max: nat, anchor: Key)
    requires size >= 1 && TraceScan(log, views, 0, max).completed
    requires Misses(views, Some(anchor)) && Answered(views, 0, None, size) && Uncut(views, 0)
    ensures !ReadyThroughout(views, 0, anchor)
  {
    CompletedLeads(log, views, 0, max);
    if ReadyThroughout(views, 0, anchor) {
      UncutSeesReady(views, 0, None, size, anchor);
    }
  }

  /** The cut scan makes the loop forget an anchor that was ready all along. */
  lemma CutScanForgetsReady(size: nat, max: nat, key: Key)
    requires size >= 1
    ensures AfterScan([Anchored(key)], CutScan(key), max) == [Anchored(key), Reset]
    ensures Answered(CutScan(key), 0, None, size) && ReadyThroughout(CutScan(key), 0, key)
  {
    CutScanMissesReady(size, key);
    assert [Anchored(key)][..0] == [];
    assert TraceScan([Anchored(key)], CutScan(key), 0, max) == ScanTrace([Anchored(key)], false, true);
  }

  /** The scan of `views` makes the loop forget `anchor`. */
  ghost predicate LosesAnchor(log: seq<Note>, views: seq<PageView>, max: nat, anchor: Key) {
    && Track(log).anchor == Some(anchor)
    && TraceScan(log, views, 0, max).completed && Misses(views, Some(anchor))
  }

  /** The loop forgets only anchors that have left the ready queue exactly if no page is cut. */
  lemma ForgetsLeftIff(size: nat, max: nat, anchor: Key, mayCut: bool)
    requires size >= 1
    ensures !mayCut <==>
      forall log, views ::
        LosesAnchor(log, views, max, anchor) && Answered(views, 0, None, size) && (mayCut || Uncut(views, 0)) ==>
          !ReadyThroughout(views, 0, anchor)
  {
    if mayCut {
      CutScanMissesReady(size, anchor);
      CutScanForgetsReady(size, max, anchor);
      assert TraceScan([Anchored(anchor)], CutScan(anchor), 0, max) == ScanTrace([Anchored(anchor)], false, true);
      assert LosesAnchor([Anchored(anchor)], CutScan(anchor), max, anchor);
    } else {
      forall log, views | LosesAnchor(log, views, max, anchor) && Answered(views, 0, None, size) && Uncut(views, 0)
        ensures !ReadyThroughout(views, 0, anchor)
      {
        MissedHasLeft(log, views, size, max, anchor);
      }
    }
  }

  /** While its task is not looked at, an anchor stays. */
  lemma {:induction false} PageKeepsAnchor(log: seq<Note>, keys: seq<Key>, view: PageView, j: nat, max: nat, anchor: Key)
    requires j <= |keys| && Track(log).anchor == Some(anchor) && !Looks(keys, view, j, anchor)
    ensures Track(TracePage(log, keys, view, j, max).log).anchor == Some(anchor)
    decreases |keys| - j
  {
    if j < |keys| && !view.record(j).full {
      var next := AfterRecord(log, keys[j], view.record(j), max);
      assert next != log ==> next[..|log|] == log;
      PageKeepsAnchor(next, keys, view, j + 1, max, anchor);
    }
  }

  lemma RoundKeepsAnchor(log: seq<Note>, view: PageView, max: nat, anchor: Key)
    requires Track(log).anchor == Some(anchor) && !Looks(view.page.keys, view, 0, anchor)
    ensures Track(TraceRound(log, view, max).log).anchor == Some(anchor)
  {
    PageKeepsAnchor(log, view.page.keys, view, 0, max, anchor);
  }

  lemma {:induction false} ScanKeepsAnchor(
    log: seq<Note>, views: seq<PageView>, i: nat, max: nat, anchor: Key)
    requires i <= |views| && Track(log).anchor == Some(anchor) && !Sees(views, i, anchor)
    ensures Track(TraceScan(log, views, i, max).log).anchor == Some(anchor)
    decreases |views| - i
  {
    if i < |views| {
      RoundKeepsAnchor(log, views[i], max, anchor);
      var round := TraceRound(log, views[i], max);
      if round.end.Done? && round.end.next.Some? {
        ScanKeepsAnchor(round.log, views, i + 1, max, anchor);
      }
    }
  }

  /** Note `p` of `trace` forgets `anchor`, which the scan of `views`, begun at note `n`, completed without meeting. */
  ghost predicate Forgets(trace: seq<Note>, n: nat, p: nat, views: seq<PageView>, size: nat, max: nat, anchor: Key)
    requires size >= 1
  {
    && n <= p < |trace| && trace[p].Reset?
    && TraceScan(trace[..n], views, 0, max) == ScanTrace(trace[..p], false, true)
    && Track(trace[..n]).anchor == Some(anchor) && Track(trace[..p]).anchor == Some(anchor)
    && Misses(views, Some(anchor))
    && (Answered(views, 0, None, size) && Uncut(views, 0) ==> !ReadyThroughout(views, 0, anchor))
  }

  /** Why the anchor is forgotten at `p`: some scan of the loop ended there without it. */
  ghost predicate ForgetsIn(trace: seq<Note>, p: nat, scans: seq<seq<PageView>>, size: nat, max: nat, anchor: Key)
    requires size >= 1
  {
    exists n: nat, k: nat :: k < |scans| && Forgets(trace, n, p, scans[k], size, max, anchor)
  }

  lemma AfterScanExtends(log: seq<Note>, views: seq<PageView>, max: nat)
    ensures log <= AfterScan(log, views, max)
  {
    ScanExtends(log, views, 0, max);
  }

  lemma CompletedDidNotFail(log: seq<Note>, views: seq<PageView>, i: nat, max: nat)
    requires i <= |views| && TraceScan(log, views, i, max).completed
    ensures !TraceScan(log, views, i, max).failed
    decreases |views| - i
  {
  }

  /** A reset logged after one scan forgets the anchor that the scan missed. */
  lemma ResetForgets(log: seq<Note>, views: seq<PageView>, size: nat, max: nat, trace: seq<Note>, p: nat)
    requires size >= 1 && AfterScan(log, views, max) <= trace
    requires |log| <= p < |AfterScan(log, views, max)| && trace[p].Reset?
    ensures Track(trace[..p]).anchor.Some?
    ensures Forgets(trace, |log|, p, views, size, max, Track(trace[..p]).anchor.value)
  {
    var scan := TraceScan(log, views, 0, max);
    ScanExtends(log, views, 0, max);
    assert trace[p] == AfterScan(log, views, max)[p];
    assert p == |scan.log|;
    assert trace[..|log|] == log && trace[..p] == scan.log;
    CompletedDidNotFail(log, views, 0, max);
    ScanKeepsAnchor(log, views, 0, max, Track(log).anchor.value);
    if Answered(views, 0, None, size) && Uncut(views, 0) {
      MissedHasLeft(log, views, size, max, Track(log).anchor.value);
    }
  }

  lemma {:induction false} LoopExtends(log: seq<Note>, scans: seq<seq<PageView>>, k: nat, max: nat)
    requires k <= |scans|
    ensures log <= TraceLoop(log, scans, k, max)
    decreases |scans| - k
  {
    if k < |scans| {
      ScanExtends(log, scans[k], 0, max);
      AfterScanExtends(log, scans[k], max);
      if !TraceScan(log, scans[k], 0, max).failed {
        LoopExtends(AfterScan(log, scans[k], max), scans, k + 1, max);
      }
    }
  }

  /**
   The loop forgets an anchor only at the end of a completed scan that looked at
   every page without meeting it; if no page of that scan was cut, the anchor had
   left the ready queue.
   */
  lemma {:induction false} ResetsAreWarranted(log: seq<Note>, scans: seq<seq<PageView>>, k: nat, size: nat, max: nat, p: nat)
    requires size >= 1 && k <= |scans|
    requires |log| <= p < |TraceLoop(log, scans, k, max)| && TraceLoop(log, scans, k, max)[p].Reset?
    ensures var trace := TraceLoop(log, scans, k, max);
      && Track(trace[..p]).anchor.Some?
      && ForgetsIn(trace, p, scans, size, max, Track(trace[..p]).anchor.value)
    decreases |scans| - k
  {
    var trace := TraceLoop(log, scans, k, max);
    ScanExtends(log, scans[k], 0, max);
    if !TraceScan(log, scans[k], 0, max).failed {
      var next := AfterScan(log, scans[k], max);
      LoopExtends(next, scans, k + 1, max);
      if p >= |next| {
        ResetsAreWarranted(next, scans, k + 1, size, max, p);
      } else {
        ResetForgets(log, scans[k], size, max, trace, p);
        assert Forgets(trace, |log|, p, scans[k], size, max, Track(trace[..p]).anchor.value);
      }
    }
  }

  lemma {:induction false} PageKeepsBypass(log: seq<Note>, keys: seq<Key>, view: PageView, j: nat, max: nat)
    requires j <= |keys| && BypassOk(log, max)
    ensures BypassOk(TracePage(log, keys, view, j, max).log, max)
    decreases |keys| - j
  {
    if j < |keys| && !view.record(j).full {
      var next := AfterRecord(log, keys[j], view.record(j), max);
      if next != log {
        TrackSnoc(log, next[|log|], max);
      }
      PageKeepsBypass(next, keys, view, j + 1, max);
    }
  }

  lemma RoundKeepsBypass(log: seq<Note>, view: PageView, max: nat)
    requires BypassOk(log, max)
    ensures BypassOk(TraceRound(log, view, max).log, max)
  {
    PageKeepsBypass(log, view.page.keys, view, 0, max);
  }

  lemma {:induction false} ScanKeepsBypass(log: seq<Note>, views: seq<PageView>, i: nat, max: nat)
    requires i <= |views| && BypassOk(log, max)
    ensures BypassOk(TraceScan(log, views, i, max).log, max)
    decreases |views| - i
  {
    if i < |views| {
      RoundKeepsBypass(log, views[i], max);
      var round := TraceRound(log, views[i], max);
      if round.end.Done? {
        ScanKeepsBypass(round.log, views, i + 1, max);
      }
    }
  }

  lemma {:induction false} LoopKeepsBypass(log: seq<Note>, scans: seq<seq<PageView>>, k: nat, max: nat)
    requires k <= |scans| && BypassOk(log, max)
    ensures BypassOk(TraceLoop(log, scans, k, max), max)
    decreases |scans| - k
  {
    if k < |scans| {
      var scan := TraceScan(log, scans[k], 0, max);
      ScanKeepsBypass(log, scans[k], 0, max);
      if !scan.failed {
        TrackSnoc(scan.log, Reset, max);
        LoopKeepsBypass(AfterScan(log, scans[k], max), scans, k + 1, max);
      }
    }
  }

  /** The first note after `i` that ends the stretch. */
  lemma {:induction false} StretchEnds(log: seq<Note>, i: nat, j: nat, anchor: Key)
    requires i < j <= |log| && log[i] == Anchored(anchor) && !AnchoredFrom(log, i, j, anchor)
    ensures exists p: nat :: i < p < j && AnchoredFrom(log, i, p, anchor) && (log[p] == Launched(anchor) || log[p].Reset?)
    decreases j
  {
    if AnchoredFrom(log, i, j - 1, anchor) {
      assert log[j - 1] == Launched(anchor) || log[j - 1].Reset?;
    } else {
      StretchEnds(log, i, j - 1, anchor);
    }
  }

  /**
   Every run of the loop, whatever it observes: between the moment `anchor` is
   anchored (`i`) and any later moment (`j`), either it was launched, or it was
   forgotten by a completed scan that looked at every page without meeting it, or at
   most `max` tasks behind it were launched, and no further one is next.
   */
  lemma EveryRunBoundsBypass(scans: seq<seq<PageView>>, size: nat, max: nat, i: nat, j: nat, anchor: Key)
    requires size >= 1
    requires i < j <= |TraceLoop([], scans, 0, max)| && TraceLoop([], scans, 0, max)[i] == Anchored(anchor)
    ensures var trace := TraceLoop([], scans, 0, max);
      || (exists p :: i < p < j && trace[p] == Launched(anchor))
      || (exists p: nat :: i < p < j && ForgetsIn(trace, p, scans, size, max, anchor))
      || (&& LargerLaunches(trace[i + 1..j], anchor) <= max
          && (LargerLaunches(trace[i + 1..j], anchor) == max && j < |trace| && trace[j].Launched? ==>
                !Less(anchor, trace[j].key)))
  {
    var trace := TraceLoop([], scans, 0, max);
    LoopKeepsBypass([], scans, 0, max);
    if AnchoredFrom(trace, i, j, anchor) {
      BoundedBypass(trace, max, i, j, anchor);
    } else {
      StretchEnds(trace, i, j, anchor);
      var p: nat :| i < p < j && AnchoredFrom(trace, i, p, anchor) && (trace[p] == Launched(anchor) || trace[p].Reset?);
      if trace[p].Reset? {
        ResetsAreWarranted([], scans, 0, size, max, p);
        TrackCounts(trace, max, i, p, anchor);
      }
    }
  }

  // ---- starts ----

  /** Keys of the launches in a log, in order. */
  function LaunchedKeys(log: seq<Note>): seq<Key> {
    if log == [] then []
    else
      var before, last := LaunchedKeys(log[..|log| - 1]), log[|log| - 1];
      if last.Launched? then before + [last.key] else before
  }

  lemma LaunchedSnoc(log: seq<Note>, note: Note)
    ensures LaunchedKeys(log + [note]) == if note.Launched? then LaunchedKeys(log) + [note.key] else LaunchedKeys(log)
  {
    assert (log + [note])[..|log|] == log;
  }

  /** `starts`, followed by the tasks whose start the store begins in records `j` and on of a page, in order. */
  function StartsInPage(starts: seq<Key>, log: seq<Note>, keys: seq<Key>, view: PageView, j: nat, max: nat): seq<Key>
    requires j <= |keys|
    decreases |keys| - j
  {
    if j == |keys| || view.record(j).full then starts
    else
      var record := view.record(j);
      var next := if Begins(Track(log), keys[j], record, max) then starts + [keys[j]] else starts;
      if RecordFlow(log, keys[j], record, max).Onward?
      then StartsInPage(next, AfterRecord(log, keys[j], record, max), keys, view, j + 1, max) else next
  }

  function StartsInRound(starts: seq<Key>, log: seq<Note>, view: PageView, max: nat): seq<Key> {
    if view.stopBefore || view.readFails then starts else StartsInPage(starts, log, view.page.keys, view, 0, max)
  }

  function StartsInScan(starts: seq<Key>, log: seq<Note>, views: seq<PageView>, i: nat, max: nat): seq<Key>
    requires i <= |views|
    decreases |views| - i
  {
    if i == |views| then starts
    else
      var round := TraceRound(log, views[i], max);
      var next := StartsInRound(starts, log, views[i], max);
      if round.end.Done? && round.end.next.Some? then StartsInScan(next, round.log, views, i + 1, max) else next
  }

  function StartsInLoop(starts: seq<Key>, log: seq<Note>, scans: seq<seq<PageView>>, k: nat, max: nat): seq<Key>
    requires k <= |scans|
    decreases |scans| - k
  {
    if k == |scans| then starts
    else
      var next := StartsInScan(starts, log, scans[k], 0, max);
      if TraceScan(log, scans[k], 0, max).failed then next
      else StartsInLoop(next, AfterScan(log, scans[k], max), scans, k + 1, max)
  }

  /** A record is logged as launched exactly if its start is attempted and begins. */
  lemma {:induction false} RecordLogsStart(log: seq<Note>, key: Key, view: RecordView, max: nat)
    ensures LaunchedKeys(AfterRecord(log, key, view, max))
         == if Begins(Track(log), key, view, max) then LaunchedKeys(log) + [key] else LaunchedKeys(log)
  {
    if Anchors(Track(log), view) {
      LaunchedSnoc(log, Anchored(key));
    } else if Launches(Track(log), key, view, max) {
      LaunchedSnoc(log, Launched(key));
    }
  }

  lemma {:induction false} PageLogsStarts(log: seq<Note>, keys: seq<Key>, view: PageView, j: nat, max: nat)
    requires j <= |keys|
    ensures LaunchedKeys(TracePage(log, keys, view, j, max).log)
         == StartsInPage(LaunchedKeys(log), log, keys, view, j, max)
    decreases |keys| - j
  {
    if j < |keys| && !view.record(j).full {
      RecordLogsStart(log, keys[j], view.record(j), max);
      PageLogsStarts(AfterRecord(log, keys[j], view.record(j), max), keys, view, j + 1, max);
    }
  }

  lemma RoundLogsStarts(log: seq<Note>, view: PageView, max: nat)
    ensures LaunchedKeys(TraceRound(log, view, max).log) == StartsInRound(LaunchedKeys(log), log, view, max)
  {
    PageLogsStarts(log, view.page.keys, view, 0, max);
  }

  lemma {:induction false} ScanLogsStarts(log: seq<Note>, views: seq<PageView>, i: nat, max: nat)
    requires i <= |views|
    ensures LaunchedKeys(TraceScan(log, views, i, max).log) == StartsInScan(LaunchedKeys(log), log, views, i, max)
    decreases |views| - i
  {
    if i < |views| {
      RoundLogsStarts(log, views[i], max);
      var round := TraceRound(log, views[i], max);
      if round.end.Done? && round.end.next.Some? {
        ScanLogsStarts(round.log, views, i + 1, max);
      }
    }
  }

  lemma AfterScanLogsStarts(log: seq<Note>, views: seq<PageView>, max: nat)
    ensures LaunchedKeys(AfterScan(log, views, max)) == StartsInScan(LaunchedKeys(log), log, views, 0, max)
  {
    ScanLogsStarts(log, views, 0, max);
    LaunchedSnoc(TraceScan(log, views, 0, max).log, Reset);
  }

  /** Over every run, the launches in the log are, in order, the starts that were attempted and begun. */
  lemma {:induction false} EveryStartIsLogged(log: seq<Note>, scans: seq<seq<PageView>>, k: nat, max: nat)
    requires k <= |scans|
    ensures LaunchedKeys(TraceLoop(log, scans, k, max)) == StartsInLoop(LaunchedKeys(log), log, scans, k, max)
    decreases |scans| - k
  {
    if k < |scans| {
      ScanLogsStarts(log, scans[k], 0, max);
      AfterScanLogsStarts(log, scans[k], max);
      if !TraceScan(log, scans[k], 0, max).failed {
        EveryStartIsLogged(AfterScan(log, scans[k], max), scans, k + 1, max);
      }
    }
  }

  /** How many of the started tasks are behind `anchor`. */
  function Behind(keys: seq<Key>, anchor: Key): nat {
    if keys == [] then 0
    else Behind(keys[..|keys| - 1], anchor) + (if Less(anchor, keys[|keys| - 1]) then 1 else 0)
  }

  lemma {:induction false} BehindCounts(log: seq<Note>, anchor: Key)
    ensures Behind(LaunchedKeys(log), anchor) == LargerLaunches(log, anchor)
  {
    if log != [] {
      BehindCounts(log[..|log| - 1], anchor);
      var before, last := LaunchedKeys(log[..|log| - 1]), log[|log| - 1];
      if last.Launched? {
        assert (before + [last.key])[..|before|] == before;
      }
    }
  }

  /**
   The bound over starts: in every run the starts are those the log shows, and between
   the moment `anchor` is anchored and any later moment, either it was started, or it
   was forgotten by a completed scan that did not meet it, or at most `max` tasks
   behind it were started, and no further one is next.
   */
  lemma EveryRunBoundsStarts(scans: seq<seq<PageView>>, size: nat, max: nat, i: nat, j: nat, anchor: Key)
    requires size >= 1
    requires i < j <= |TraceLoop([], scans, 0, max)| && TraceLoop([], scans, 0, max)[i] == Anchored(anchor)
    ensures var trace := TraceLoop([], scans, 0, max);
      && LaunchedKeys(trace) == StartsInLoop([], [], scans, 0, max)
      && (|| anchor in LaunchedKeys(trace[i + 1..j])
          || (exists p: nat :: i < p < j && ForgetsIn(trace, p, scans, size, max, anchor))
          || (&& Behind(LaunchedKeys(trace[i + 1..j]), anchor) <= max
              && (Behind(LaunchedKeys(trace[i + 1..j]), anchor) == max && j < |trace| && trace[j].Launched? ==>
                    !Less(anchor, trace[j].key))))
  {
    var trace := TraceLoop([], scans, 0, max);
    EveryStartIsLogged([], scans, 0, max);
    EveryRunBoundsBypass(scans, size, max, i, j, anchor);
    BehindCounts(trace[i + 1..j], anchor);
    if p :| i < p < j && trace[p] == Launched(anchor) {
      assert trace[i + 1..j][p - i - 1] == Launched(anchor);
      LaunchedIn(trace[i + 1..j], p - i - 1);
    }
  }

  lemma {:induction false} LaunchedIn(log: seq<Note>, p: nat)
    requires p < |log| && log[p].Launched?
    ensures log[p].key in LaunchedKeys(log)
  {
    if p < |log| - 1 {
      LaunchedIn(log[..|log| - 1], p);
    }
  }

  // ---- the scheduler ----

  class Scheduler {
    const maxBypasses: nat
    const pageSize: nat
    var fairness: Fairness
    var started: seq<Key>
    ghost var log: seq<Note>

    /** The fairness state is that of the log, whose launches are exactly the starts made. */
    ghost predicate Valid()
      reads this
    {
      pageSize >= 1 && fairness == Track(log) && BypassOk(log, maxBypasses) && LaunchedKeys(log) == started
    }

    constructor (maxBypasses: nat, pageSize: nat)
      requires pageSize >= 1
      ensures Valid() && log == [] && fairness == NO_ANCHOR
      ensures this.maxBypasses == maxBypasses && this.pageSize == pageSize
    {
      this.maxBypasses, this.pageSize := maxBypasses, pageSize;
      fairness, started, log := NO_ANCHOR, [], [];
    }

    /** Temporary pressure establishes the anchor, if there is none. */
    method ReserveTaskResources(key: Key, outcome: Reservation) returns (granted: bool)
      requires Valid()
      modifies this`fairness, this`log
      ensures Valid() && (granted <==> outcome.Granted?)
      ensures if outcome.TemporarilyUnavailable? && old(fairness).anchor.None?
              then log == old(log) + [Anchored(key)] && fairness == Fairness(Some(key), 0)
              else log == old(log) && fairness == old(fairness)
    {
      if outcome.TemporarilyUnavailable? && fairness.anchor.None? {
        TrackSnoc(log, Anchored(key), maxBypasses);
        LaunchedSnoc(log, Anchored(key));
        fairness := fairness.(anchor := Some(key));
        log := log + [Anchored(key)];
      }
      granted := outcome.Granted?;
    }

    /** Counts a start that began. */
    method NoteLaunch(key: Key)
      requires Valid() && MayLaunch(fairness, key, maxBypasses)
      modifies this
      ensures Valid() && log == old(log) + [Launched(key)] && started == old(started) + [key]
      ensures old(fairness).anchor == Some(key) || fairness.anchor == old(fairness).anchor
    {
      TrackSnoc(log, Launched(key), maxBypasses);
      LaunchedSnoc(log, Launched(key));
      started := started + [key];
      if fairness.anchor.Some? {
        if key == fairness.anchor.value {
          fairness := NO_ANCHOR;
        } else if Less(fairness.anchor.value, key) {
          fairness := fairness.(bypasses := fairness.bypasses + 1);
        }
      }
      log := log + [Launched(key)];
    }

    /**
     One record of a page, from the eligibility check to the spawned handler; `begun` tells
     whether the store began its start.
     */
    method HandleRecord(key: Key, view: RecordView, saw: bool) returns (flow: Flow, seen: bool, begun: bool)
      requires Valid()
      modifies this
      ensures Valid()
      ensures begun <==>
                && view.eligible && view.reservation.Granted? && !view.shuttingDown && view.start.Begun?
                && !(old(fairness).anchor.Some? && old(fairness).bypasses >= maxBypasses
                     && Less(old(fairness).anchor.value, key))
      ensures started == old(started) + (if begun then [key] else [])
      ensures begun <==> log == old(log) + [Launched(key)]
      ensures log == AfterRecord(old(log), key, view, maxBypasses)
      ensures flow == RecordFlow(old(log), key, view, maxBypasses)
      ensures saw || old(fairness).anchor == Some(key) ==> seen
      ensures !saw && old(fairness).anchor.Some? && old(fairness).anchor != Some(key) ==>
                !seen && fairness.anchor == old(fairness).anchor
    {
      flow, seen, begun := Onward, saw || fairness.anchor == Some(key), false;
      if !view.eligible {
        return;
      }
      var granted := ReserveTaskResources(key, view.reservation);
      if !granted {
        seen := seen || fairness.anchor == Some(key);
        return;
      }
      if fairness.anchor.Some? && fairness.bypasses >= maxBypasses && Less(fairness.anchor.value, key) {
        return;
      }
      if view.shuttingDown {
        flow := Stop;
        return;
      }
      match view.start
      case Begun =>
        begun := true;
        NoteLaunch(key);
      case Lost =>
      case StoreFails => flow := Fail;
    }

    /** The records of one page, up to the first check that sees the in-flight limit. */
    method ScanPage(keys: seq<Key>, view: PageView, saw: bool, ghost sought: Option<Key>) returns (flow: Flow, seen: bool)
      requires Valid()
      requires saw || (sought.Some? && fairness.anchor == sought)
      modifies this
      ensures Valid()
      ensures PageTrace(log, flow) == TracePage(old(log), keys, view, 0, maxBypasses)
      ensures seen || (sought.Some? && fairness.anchor == sought)
      ensures flow.Onward? ==> (seen <==> saw || (sought.Some? && Looks(keys, view, 0, sought.value)))
    {
      var j := 0;
      flow, seen := Onward, saw;
      while j < |keys| && !view.record(j).full
        invariant 0 <= j <= |keys| && flow.Onward?
        invariant Valid()
        invariant TracePage(log, keys, view, j, maxBypasses) == TracePage(old(log), keys, view, 0, maxBypasses)
        invariant seen || (sought.Some? && fairness.anchor == sought)
        invariant seen || (sought.Some? && Looks(keys, view, j, sought.value))
             <==> saw || (sought.Some? && Looks(keys, view, 0, sought.value))
      {
        var begun;
        flow, seen, begun := HandleRecord(keys[j], view.record(j), seen);
        if !flow.Onward? {
          return;
        }
        j := j + 1;
      }
    }

    /** One round of the scan: the checks around a page, and the page itself. */
    method ReadPage(view: PageView, saw: bool, ghost sought: Option<Key>)
      returns (end: PageEnd, seen: bool)
      requires Valid()
      requires saw || (sought.Some? && fairness.anchor == sought)
      modifies this
      ensures Valid()
      ensures RoundTrace(log, end) == TraceRound(old(log), view, maxBypasses)
      ensures seen || (sought.Some? && fairness.anchor == sought)
      ensures end.Done? ==>
                && end.next == view.page.next
                && (seen <==> saw || (sought.Some? && Looks(view.page.keys, view, 0, sought.value)))
    {
      seen := saw;
      if view.stopBefore {
        return Halted, seen;
      }
      if view.readFails {
        return Broken, seen;
      }
      var page := view.page;
      var flow;
      flow, seen := ScanPage(page.keys, view, saw, sought);
      if flow.Fail? {
        return Broken, seen;
      }
      if flow.Stop? || view.stopAfter {
        return Halted, seen;
      }
      end := Done(page.next);
    }

    /** The page loop of one scan; `saw` tells whether the task that was the anchor came by. */
    method ScanPages(views: seq<PageView>) returns (failed: bool, completed: bool, saw: bool)
      requires Valid()
      modifies this
      ensures Valid()
      ensures ScanTrace(log, failed, completed) == TraceScan(old(log), views, 0, maxBypasses)
      ensures saw || (old(fairness).anchor.Some? && fairness.anchor == old(fairness).anchor)
      ensures completed ==> (saw <==> !Misses(views, old(fairness).anchor))
    {
      ghost var sought := fairness.anchor;
      var i := 0;
      failed, completed, saw := false, false, fairness.anchor.None?;
      while i < |views|
        invariant 0 <= i <= |views| && !failed && !completed
        invariant Valid()
        invariant TraceScan(log, views, i, maxBypasses)
               == TraceScan(old(log), views, 0, maxBypasses)
        invariant saw || (sought.Some? && fairness.anchor == sought)
        invariant saw || (sought.Some? && Sees(views, i, sought.value))
             <==> !Misses(views, sought)
      {
        var end;
        end, saw := ReadPage(views[i], saw, sought);
        if !end.Done? {
          failed := end.Broken?;
          break;
        }
        if end.next.None? {
          completed := true;
          break;
        }
        i := i + 1;
      }
    }

    /**
     One scan. `missed` tells the loop to forget the anchor; that happens exactly if
     the scan completed without looking at the task that was the anchor, and unless a
     page was cut only if that task had left the ready queue.
     */
    method ScanReadyPages(views: seq<PageView>) returns (failed: bool, completed: bool, missed: bool)
      requires Valid()
      modifies this
      ensures Valid()
      ensures ScanTrace(log, failed, completed) == TraceScan(old(log), views, 0, maxBypasses)
      ensures Extends(old(log), log)
      ensures missed <==> completed && Misses(views, old(fairness).anchor)
      ensures missed ==> fairness.anchor == old(fairness).anchor
      ensures missed && Answered(views, 0, None, pageSize) && Uncut(views, 0) ==>
                !ReadyThroughout(views, 0, old(fairness).anchor.value)
      ensures Calm(views, 0) ==> completed && !failed
    {
      var saw;
      failed, completed, saw := ScanPages(views);
      missed := completed && !saw && fairness.anchor.Some?;
      ScanMeaning(old(log), views, missed);
    }

    lemma ScanMeaning(log: seq<Note>, views: seq<PageView>, missed: bool)
      requires pageSize >= 1
      requires missed ==>
                 && TraceScan(log, views, 0, maxBypasses).completed
                 && Misses(views, Track(log).anchor)
      ensures Extends(log, TraceScan(log, views, 0, maxBypasses).log)
      ensures missed && Answered(views, 0, None, pageSize) && Uncut(views, 0) ==>
                !ReadyThroughout(views, 0, Track(log).anchor.value)
      ensures var scan := TraceScan(log, views, 0, maxBypasses);
        Calm(views, 0) ==> scan.completed && !scan.failed
    {
      ScanExtends(log, views, 0, maxBypasses);
      if missed && Answered(views, 0, None, pageSize) && Uncut(views, 0) {
        MissedHasLeft(log, views, pageSize, maxBypasses, Track(log).anchor.value);
      }
      if Calm(views, 0) {
        CalmCompletes(log, views, 0, maxBypasses);
        CompletedDidNotFail(log, views, 0, maxBypasses);
      }
    }

    /** The scheduling loop over any number of scans: the bypass bound is kept, and every reset is warranted. */
    method Loop(scans: seq<seq<PageView>>)
      requires Valid()
      modifies this
      ensures Valid()
      ensures log == TraceLoop(old(log), scans, 0, maxBypasses)
      ensures started == StartsInLoop(old(started), old(log), scans, 0, maxBypasses)
      ensures forall p :: |old(log)| <= p < |log| && log[p].Reset? ==>
                Track(log[..p]).anchor.Some? && ForgetsIn(log, p, scans, pageSize, maxBypasses, Track(log[..p]).anchor.value)
    {
      var k := 0;
      while k < |scans|
        invariant 0 <= k <= |scans|
        invariant Valid()
        invariant TraceLoop(log, scans, k, maxBypasses) == TraceLoop(old(log), scans, 0, maxBypasses)
      {
        var failed, completed, missed := ScanReadyPages(scans[k]);
        if failed {
          break;
        }
        if missed {
          TrackSnoc(log, Reset, maxBypasses);
          LaunchedSnoc(log, Reset);
          fairness, log := NO_ANCHOR, log + [Reset];
        }
        k := k + 1;
      }
      EveryStartIsLogged(old(log), scans, 0, maxBypasses);
      forall p | |old(log)| <= p < |log| && log[p].Reset?
        ensures Track(log[..p]).anchor.Some? && ForgetsIn(log, p, scans, pageSize, maxBypasses, Track(log[..p]).anchor.value)
      {
        ResetsAreWarranted(old(log), scans, 0, pageSize, maxBypasses, p);
      }
    }
  }
}
