/**
 Admission, the in-flight counter and the stages of shutdown. Public calls
 (submit, cancel, resume) and the scheduler's start hold the admission lock for
 reading; the supervisor takes it for writing once, as a barrier, then waits for
 the scheduler to stop and for the in-flight counter to drop to zero before it
 releases the store owner. A caller may abandon a call anywhere: its lock is
 freed, but a store operation already running keeps the store's only slot.

 Each event is one atomic step; an event whose guard does not hold changes nothing.
 */
module Shutdowns {
  import opened TaskStates

  /** `Entered` holds the lock and has not looked at the shutdown flag; `Storing` has an operation in the store. */
  datatype Call = Entered | Active | Storing

  datatype Scheduler =
    | Idle
    | Room        // saw the in-flight counter below the limit
    | Locked      // holds the admission lock, shutdown flag not checked
    | Starting    // flag checked, start under way, lock held
    | Launching   // task started, lock freed, handler not counted yet
    | Stopped

  datatype Supervisor = Waiting | Barred | Draining | Releasing | Released

  /** `begun` counts the starts the store began, `ended` the handlers that returned. */
  datatype System = System(
    maxRunning: nat,
    shuttingDown: bool,
    calls: map<nat, Call>,
    slot: Option<nat>,        // the call whose operation runs in the store
    scheduler: Scheduler,
    handlers: nat,
    flights: nat,
    inFlight: nat,
    supervisor: Supervisor,
    begun: nat,
    ended: nat)

  datatype Event =
    | Enter(call: nat)
    | Check(call: nat)
    | BeginStore(call: nat)
    | EndStore
    | SpawnFlight(call: nat)
    | Leave(call: nat)
    | Abandon(call: nat)
    | SeeRoom
    | Lock
    | CheckShutdown
    | StartResult(begun: bool)
    | StartFails
    | SpawnHandler
    | StopScheduler
    | HandlerEnds
    | FlightEnds
    | RequestShutdown
    | Bar
    | SeeSchedulerStopped
    | SeeDrained
    | ReleaseFails
    | ReleaseSucceeds

  function Initial(maxRunning: nat): System {
    System(maxRunning, false, map[], None, Idle, 0, 0, 0, Waiting, 0, 0)
  }

  predicate Is(s: System, c: nat, call: Call) {
    c in s.calls && s.calls[c] == call
  }

  function Without(calls: map<nat, Call>, c: nat): map<nat, Call> {
    calls - {c}
  }

  function StepCall(s: System, e: Event): System {
    match e
    case Enter(c) => if c !in s.calls then s.(calls := s.calls[c := Entered]) else s
    case Check(c) =>
      if !Is(s, c, Entered) then s
      else if s.shuttingDown then s.(calls := Without(s.calls, c))
      else s.(calls := s.calls[c := Active])
    case BeginStore(c) =>
      if Is(s, c, Active) && s.slot.None? then s.(calls := s.calls[c := Storing], slot := Some(c)) else s
    case EndStore =>
      if s.slot.None? then s
      else if Is(s, s.slot.value, Storing) then s.(slot := None, calls := s.calls[s.slot.value := Active])
      else s.(slot := None)
    case SpawnFlight(c) => if Is(s, c, Active) then s.(flights := s.flights + 1, inFlight := s.inFlight + 1) else s
    case Leave(c) => if Is(s, c, Active) then s.(calls := Without(s.calls, c)) else s
    case Abandon(c) => s.(calls := Without(s.calls, c))
    case _ => s
  }

  function StepScheduler(s: System, e: Event): System {
    match e
    case SeeRoom =>
      if s.scheduler.Idle? && !s.shuttingDown && s.inFlight < s.maxRunning then s.(scheduler := Room) else s
    case Lock => if s.scheduler.Room? then s.(scheduler := Locked) else s
    case CheckShutdown =>
      if s.scheduler.Locked? then s.(scheduler := if s.shuttingDown then Idle else Starting) else s
    case StartResult(begun) =>
      if !s.scheduler.Starting? then s
      else if begun then s.(scheduler := Launching, begun := s.begun + 1)
      else s.(scheduler := Idle)
    case StartFails => if s.scheduler.Starting? then s.(scheduler := Stopped, shuttingDown := true) else s
    case SpawnHandler =>
      if s.scheduler.Launching?
      then s.(scheduler := Idle, handlers := s.handlers + 1, inFlight := s.inFlight + 1) else s
    case StopScheduler => if s.scheduler.Idle? && s.shuttingDown then s.(scheduler := Stopped) else s
    case HandlerEnds =>
      if s.handlers > 0 && s.inFlight > 0
      then s.(handlers := s.handlers - 1, inFlight := s.inFlight - 1, ended := s.ended + 1) else s
    case FlightEnds =>
      if s.flights > 0 && s.inFlight > 0 then s.(flights := s.flights - 1, inFlight := s.inFlight - 1) else s
    case _ => s
  }

  function StepSupervisor(s: System, e: Event): System {
    match e
    case RequestShutdown => s.(shuttingDown := true)
    case Bar =>
      if s.supervisor.Waiting? && s.shuttingDown && s.calls == map[]
         && !s.scheduler.Locked? && !s.scheduler.Starting?
      then s.(supervisor := Barred) else s
    case SeeSchedulerStopped =>
      if s.supervisor.Barred? && s.scheduler.Stopped? then s.(supervisor := Draining) else s
    case SeeDrained => if s.supervisor.Draining? && s.inFlight == 0 then s.(supervisor := Releasing) else s
    case ReleaseSucceeds => if s.supervisor.Releasing? && s.slot.None? then s.(supervisor := Released) else s
    case _ => s
  }

  /** `ReleaseFails` leaves everything as it is: the supervisor stays ready to try again. */
  function Step(s: System, e: Event): System {
    StepSupervisor(StepScheduler(StepCall(s, e), e), e)
  }

  function Exec(maxRunning: nat, events: seq<Event>): System {
    if events == [] then Initial(maxRunning)
    else Step(Exec(maxRunning, events[..|events| - 1]), events[|events| - 1])
  }

  // ---- invariants ----

  /**
   The counter counts exactly the live handlers and hook flights, every start has its
   handler, and handlers respect the limit.
   */
  predicate Counted(s: System) {
    && s.inFlight == s.handlers + s.flights
    && s.begun == s.handlers + s.ended + (if s.scheduler.Launching? then 1 else 0)
    && s.handlers <= s.maxRunning
    && (s.scheduler.Room? || s.scheduler.Locked? || s.scheduler.Starting? || s.scheduler.Launching? ==>
          s.handlers < s.maxRunning)
  }

  ghost predicate NoneAdmitted(s: System) {
    forall c :: c in s.calls ==> s.calls[c].Entered?
  }

  /** What each stage of shutdown has established for good. */
  ghost predicate Staged(s: System) {
    && (!s.supervisor.Waiting? ==> s.shuttingDown && NoneAdmitted(s) && !s.scheduler.Starting?)
    && (s.supervisor.Draining? || s.supervisor.Releasing? || s.supervisor.Released? ==> s.scheduler.Stopped?)
    && (s.supervisor.Releasing? || s.supervisor.Released? ==> s.inFlight == 0)
    && (s.supervisor.Released? ==> s.slot.None?)
  }

  lemma StepKeepsCount(s: System, e: Event)
    requires Counted(s)
    ensures Counted(Step(s, e))
  {
  }

  lemma StepKeepsStages(s: System, e: Event)
    requires Counted(s) && Staged(s)
    ensures Staged(Step(s, e))
  {
  }

  lemma {:induction false} InvHolds(maxRunning: nat, events: seq<Event>)
    ensures Counted(Exec(maxRunning, events)) && Staged(Exec(maxRunning, events))
    ensures Exec(maxRunning, events).maxRunning == maxRunning
  {
    if events != [] {
      InvHolds(maxRunning, events[..|events| - 1]);
      StepKeepsCount(Exec(maxRunning, events[..|events| - 1]), events[|events| - 1]);
      StepKeepsStages(Exec(maxRunning, events[..|events| - 1]), events[|events| - 1]);
    }
  }

  // ---- results ----

  /** At every reachable state the counter is exact and the handlers stay within the limit. */
  lemma InFlightIsExact(maxRunning: nat, events: seq<Event>)
    ensures var s := Exec(maxRunning, events);
      && s.inFlight == s.handlers + s.flights && s.handlers <= maxRunning
      && s.begun == s.handlers + s.ended + (if s.scheduler.Launching? then 1 else 0)
  {
    InvHolds(maxRunning, events);
  }

  ghost predicate Quiescent(s: System) {
    s.shuttingDown && NoneAdmitted(s) && s.scheduler.Stopped? && s.handlers == 0 && s.flights == 0 && s.inFlight == 0
  }

  lemma StaysReleasing(s: System, e: Event)
    requires s.supervisor.Releasing? || s.supervisor.Released?
    ensures Step(s, e).supervisor.Releasing? || Step(s, e).supervisor.Released?
  {
  }

  lemma {:induction false} ReleasingForEver(maxRunning: nat, before: seq<Event>, after: seq<Event>)
    requires Exec(maxRunning, before).supervisor.Releasing? || Exec(maxRunning, before).supervisor.Released?
    ensures Exec(maxRunning, before + after).supervisor.Releasing? || Exec(maxRunning, before + after).supervisor.Released?
    decreases |after|
  {
    if after == [] {
      assert before + after == before;
    } else {
      var init := after[..|after| - 1];
      assert (before + after)[..|before + after| - 1] == before + init;
      ReleasingForEver(maxRunning, before, init);
      StaysReleasing(Exec(maxRunning, before + init), after[|after| - 1]);
    }
  }

  /**
   From the moment an owner release may be attempted, and in every continuation, no
   call is past admission, the scheduler, every handler and every hook is gone, and
   every start the store ever began was run by a handler that has ended; and when the release takes effect not even an abandoned store operation is left.
   */
  lemma QuiescentForEver(maxRunning: nat, before: seq<Event>, after: seq<Event>)
    requires Exec(maxRunning, before).supervisor.Releasing? || Exec(maxRunning, before).supervisor.Released?
    ensures var s := Exec(maxRunning, before + after);
      && Quiescent(s)
      && (s.supervisor.Releasing? || s.supervisor.Released?)
      && (s.supervisor.Released? ==> s.slot.None?)
      && s.begun == s.ended
  {
    ReleasingForEver(maxRunning, before, after);
    InvHolds(maxRunning, before + after);
  }

  // ---- shutdown can always complete ----

  function Run(s: System, events: seq<Event>): System
    decreases |events|
  {
    if events == [] then s else Run(Step(s, events[0]), events[1..])
  }

  lemma {:induction false} RunAppend(s: System, a: seq<Event>, b: seq<Event>)
    ensures Run(s, a + b) == Run(Run(s, a), b)
    decreases |a|
  {
    if a == [] {
      assert a + b == b;
    } else {
      assert (a + b)[1..] == a[1..] + b;
      RunAppend(Step(s, a[0]), a[1..], b);
    }
  }

  lemma {:induction false} ExecRun(maxRunning: nat, before: seq<Event>, after: seq<Event>)
    ensures Exec(maxRunning, before + after) == Run(Exec(maxRunning, before), after)
    decreases |after|
  {
    if after == [] {
      assert before + after == before;
    } else {
      assert (before + [after[0]])[..|before|] == before;
      assert before + after == before + [after[0]] + after[1..];
      ExecRun(maxRunning, before + [after[0]], after[1..]);
    }
  }

  /** Only the call that took the store's slot has an operation in the store. */
  ghost predicate SlotTaken(s: System) {
    forall c :: c in s.calls && s.calls[c].Storing? ==> s.slot == Some(c)
  }

  lemma {:induction false} SlotTakenHolds(maxRunning: nat, events: seq<Event>)
    ensures SlotTaken(Exec(maxRunning, events))
  {
    if events != [] {
      SlotTakenHolds(maxRunning, events[..|events| - 1]);
    }
  }

  lemma FreeSlot(s: System) returns (more: seq<Event>)
    requires SlotTaken(s)
    ensures var t := Run(s, more);
      && t.slot.None? && (forall c :: c in t.calls ==> !t.calls[c].Storing?)
      && t.(calls := s.calls, slot := s.slot) == s
  {
    more := [EndStore];
    assert Run(s, more) == Step(s, EndStore);
  }

  /** Once shutdown is requested every call ends by itself: one at the gate is turned away, the others leave. */
  lemma {:induction false} EndCalls(s: System) returns (more: seq<Event>)
    requires s.shuttingDown && forall c :: c in s.calls ==> !s.calls[c].Storing?
    ensures Run(s, more) == s.(calls := map[])
    decreases |s.calls|
  {
    if s.calls == map[] {
      more := [];
    } else {
      var c :| c in s.calls;
      var e := if Is(s, c, Entered) then Check(c) else Leave(c);
      var t := Step(s, e);
      assert t == s.(calls := s.calls - {c});
      var rest := EndCalls(t);
      more := [e] + rest;
    }
  }

  /** So does the scheduler, from wherever it is. */
  lemma EndScheduler(s: System) returns (more: seq<Event>)
    requires s.shuttingDown && Counted(s)
    ensures var t := Run(s, more);
      && t.scheduler.Stopped? && Counted(t)
      && t.shuttingDown && t.calls == s.calls && t.slot == s.slot && t.supervisor == s.supervisor
  {
    var idle := match s.scheduler
      case Room => [Lock, CheckShutdown]
      case Locked => [CheckShutdown]
      case Starting => [StartResult(false)]
      case Launching => [SpawnHandler]
      case _ => [];
    var t := Run(s, idle);
    assert s.scheduler.Room? ==> [Lock, CheckShutdown][1..] == [CheckShutdown];
    assert t.scheduler.Idle? || t.scheduler.Stopped?;
    RunAppend(s, idle, [StopScheduler]);
    more := idle + [StopScheduler];
  }

  lemma {:induction false} EndWork(s: System) returns (more: seq<Event>)
    requires Counted(s) && !s.scheduler.Launching?
    ensures var t := Run(s, more);
      && t.inFlight == 0
      && t.shuttingDown == s.shuttingDown && t.calls == s.calls && t.slot == s.slot
      && t.scheduler == s.scheduler && t.supervisor == s.supervisor
    decreases s.inFlight
  {
    if s.inFlight == 0 {
      more := [];
    } else {
      var e := if s.handlers > 0 then HandlerEnds else FlightEnds;
      var rest := EndWork(Step(s, e));
      more := [e] + rest;
    }
  }

  lemma EndSupervisor(s: System) returns (more: seq<Event>)
    requires s.shuttingDown && s.calls == map[] && s.slot.None? && s.scheduler.Stopped? && s.inFlight == 0
    ensures Run(s, more).supervisor.Released?
  {
    more := [Bar, SeeSchedulerStopped, SeeDrained, ReleaseSucceeds];
    assert more[1..] == [SeeSchedulerStopped, SeeDrained, ReleaseSucceeds];
    assert more[1..][1..] == [SeeDrained, ReleaseSucceeds] && more[1..][1..][1..] == [ReleaseSucceeds];
  }

  /** From every reachable state shutdown can complete, without any caller giving up and whatever failed before. */
  lemma ReleaseStaysPossible(maxRunning: nat, events: seq<Event>) returns (more: seq<Event>)
    ensures Exec(maxRunning, events + more).supervisor.Released?
  {
    var s := Exec(maxRunning, events);
    InvHolds(maxRunning, events);
    SlotTakenHolds(maxRunning, events);
    var s1 := Step(s, RequestShutdown);
    var m1 := FreeSlot(s1);
    var s2 := Run(s1, m1);
    var m2 := EndCalls(s2);
    var s3 := Run(s2, m2);
    var m3 := EndScheduler(s3);
    var s4 := Run(s3, m3);
    var m4 := EndWork(s4);
    var m5 := EndSupervisor(Run(s4, m4));
    RunAppend(s1, m1, m2);
    RunAppend(s1, m1 + m2, m3);
    RunAppend(s1, m1 + m2 + m3, m4);
    RunAppend(s1, m1 + m2 + m3 + m4, m5);
    more := [RequestShutdown] + (m1 + m2 + m3 + m4 + m5);
    ExecRun(maxRunning, events, more);
  }
}
