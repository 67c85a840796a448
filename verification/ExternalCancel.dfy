/**
 External cancellation hooks of one task attempt. Cancel calls share one map entry
 per attempt; the call that finds no entry spawns a flight, which checks the
 record, runs the hook and reconciles its result. The finishing handler removes
 the entry after the attempt left `Running`, and an ending flight overwrites or
 removes whatever entry is there, even one that belongs to a younger flight.

 Each event is one atomic step; an event whose guard does not hold changes nothing.
 */
module ExternalCancels {
  datatype Entry = NoEntry | InFlight(flight: nat) | SucceededEntry

  datatype Outcome = Success | HookFailed | AlreadyTerminal | ServiceFailed

  datatype Flight =
    | Checking                  // about to read the record
    | Requesting(version: nat)  // saw the attempt running; about to persist the request over that version
    | Ready                     // request persisted; hook not invoked yet
    | Hooking                   // the hook runs
    | Confirming                // hook succeeded; about to read the record
    | Clearing(version: nat)    // hook succeeded; about to clear an older error over that version
    | Recording                 // hook failed; about to read the record
    | Failing(version: nat)     // hook failed; about to persist the error over that version
    | Ending(outcome: Outcome)  // about to update the entry
    | Latching                  // entry removed; about to latch the service fault
    | Ended

  datatype Finisher = Executing | Finishing(version: nat) | Left | Finished

  datatype LogEntry = HookStarts(flight: nat) | HookSucceeds(flight: nat) | HookFails(flight: nat) | ReconcileFails(flight: nat)

  /** `flights[f]` is flight `f`, in order of spawning. `asking` are the calls that saw the attempt running. */
  datatype System = System(
    running: bool,
    version: nat,
    requested: bool,
    error: bool,
    entry: Entry,
    flights: seq<Flight>,
    asking: set<nat>,
    fault: bool,
    finisher: Finisher,
    log: seq<LogEntry>)

  datatype Event =
    | CallReads(call: nat)
    | CallStartsOrJoins(call: nat)
    | Check(flight: nat, storeFails: bool)
    | Request(flight: nat, storeFails: bool)
    | StartHook(flight: nat, available: bool)
    | HookOk(flight: nat)
    | HookError(flight: nat)
    | Confirm(flight: nat, storeFails: bool)
    | Clear(flight: nat, storeFails: bool)
    | Record(flight: nat, storeFails: bool)
    | Fail(flight: nat, storeFails: bool)
    | End(flight: nat)
    | LatchFault(flight: nat)
    | ReadToFinish
    | Finish
    | RemoveEntry
    | Restart

  function Initial(version: nat): System {
    System(true, version, false, false, NoEntry, [], {}, false, Executing, [])
  }

  function At(s: System, f: nat): Flight {
    if f < |s.flights| then s.flights[f] else Ended
  }

  /** A flight's compare-and-set on the running attempt. */
  predicate Matches(s: System, version: nat) {
    s.running && s.version == version
  }

  /** A step of one flight: its next phase, and what it makes of the shared state. */
  datatype Move = Move(next: Flight, shared: System)

  function Written(s: System, error: bool): System {
    s.(version := s.version + 1, requested := true, error := error)
  }

  function Logged(s: System, entry: LogEntry): System {
    s.(log := s.log + [entry])
  }

  function Advance(s: System, flight: Flight, e: Event): Move {
    match (e, flight)
    case (Check(_, storeFails), Checking) =>
      Move(if storeFails then Ending(ServiceFailed)
           else if !s.running then Ending(AlreadyTerminal)
           else if !s.requested || s.error then Requesting(s.version)
           else Ready, s)
    case (Request(_, storeFails), Requesting(version)) =>
      if storeFails then Move(Ending(ServiceFailed), s)
      else if !Matches(s, version) then Move(Checking, s)
      else Move(Ready, Written(s, false))
    case (StartHook(f, available), Ready) =>
      if available then Move(Hooking, Logged(s, HookStarts(f))) else Move(Ending(ServiceFailed), s)
    case (HookOk(f), Hooking) => Move(Confirming, Logged(s, HookSucceeds(f)))
    case (HookError(f), Hooking) => Move(Recording, Logged(s, HookFails(f)))
    case (Confirm(f, storeFails), Confirming) =>
      if storeFails then Move(Ending(ServiceFailed), Logged(s, ReconcileFails(f)))
      else Move(if !s.running then Ending(AlreadyTerminal)
                else if !s.error then Ending(Success)
                else Clearing(s.version), s)
    case (Clear(f, storeFails), Clearing(version)) =>
      if storeFails then Move(Ending(ServiceFailed), Logged(s, ReconcileFails(f)))
      else if !Matches(s, version) then Move(Confirming, s)
      else Move(Ending(Success), Written(s, false))
    case (Record(_, storeFails), Recording) =>
      Move(if storeFails then Ending(ServiceFailed)
           else if !s.running then Ending(AlreadyTerminal)
           else Failing(s.version), s)
    case (Fail(_, storeFails), Failing(version)) =>
      if storeFails then Move(Ending(ServiceFailed), s)
      else if !Matches(s, version) then Move(Recording, s)
      else Move(Ending(HookFailed), Written(s, true))
    case (End(_), Ending(outcome)) =>
      Move(if outcome.ServiceFailed? then Latching else Ended,
           s.(entry := if outcome.Success? then SucceededEntry else NoEntry))
    case (LatchFault(_), Latching) => Move(Ended, s.(fault := true))
    case _ => Move(flight, s)
  }

  predicate IsFlightEvent(e: Event) {
    !e.CallReads? && !e.CallStartsOrJoins? && !e.ReadToFinish? && !e.Finish? && !e.RemoveEntry? && !e.Restart?
  }

  function StepFlight(s: System, e: Event): System
    requires IsFlightEvent(e)
  {
    if e.flight >= |s.flights| then s
    else
      var move := Advance(s, s.flights[e.flight], e);
      move.shared.(flights := s.flights[e.flight := move.next])
  }

  function Step(s: System, e: Event): System {
    match e
    case CallReads(c) => if s.running && !s.fault then s.(asking := s.asking + {c}) else s
    case CallStartsOrJoins(c) =>
      if c !in s.asking then s
      else if !s.entry.NoEntry? then s.(asking := s.asking - {c})
      else s.(asking := s.asking - {c}, entry := InFlight(|s.flights|), flights := s.flights + [Checking])
    case ReadToFinish => if s.finisher.Executing? && s.running then s.(finisher := Finishing(s.version)) else s
    case Finish =>
      if !s.finisher.Finishing? then s
      else if !Matches(s, s.finisher.version) then s.(finisher := Finished)
      else s.(finisher := Left, running := false, version := s.version + 1)
    case RemoveEntry => if s.finisher.Left? then s.(finisher := Finished, entry := NoEntry) else s
    case Restart =>
      System(false, s.version + 1, s.requested, s.error, NoEntry,
             seq(|s.flights|, i => Ended), {}, false, Finished, s.log)
    case _ => StepFlight(s, e)
  }

  function Exec(version: nat, events: seq<Event>): System {
    if events == [] then Initial(version) else Step(Exec(version, events[..|events| - 1]), events[|events| - 1])
  }

  // ---- single flight ----

  /** Has seen the attempt running, and is on its way to the hook, in it, or reconciling it. */
  predicate Engaged(flight: Flight) {
    !flight.Checking? && !flight.Ending? && !flight.Latching? && !flight.Ended?
  }

  predicate Live(flight: Flight) {
    !flight.Latching? && !flight.Ended?
  }

  ghost predicate OneEngaged(s: System) {
    forall f: nat, g: nat :: Engaged(At(s, f)) && Engaged(At(s, g)) ==> f == g
  }

  /** While the attempt runs, the entry belongs to the one live flight, and is gone or a success without one. */
  ghost predicate EntryIsLive(s: System) {
    s.running ==> forall f: nat :: Live(At(s, f)) <==> s.entry == InFlight(f)
  }

  ghost predicate SingleFlight(s: System) {
    && OneEngaged(s)
    && EntryIsLive(s)
    && (s.finisher.Left? ==> !s.running)
  }

  /** What one step of a flight leaves alone, and that only a running attempt engages it. */
  lemma AdvanceFrame(s: System, flight: Flight, e: Event)
    requires IsFlightEvent(e)
    ensures var m := Advance(s, flight, e);
      && m.shared.running == s.running && m.shared.finisher == s.finisher
      && (Engaged(m.next) ==> Engaged(flight) || (flight.Checking? && s.running))
      && (Live(m.next) ==> Live(flight) && m.shared.entry == s.entry)
      && (m.shared.entry != s.entry ==> Live(flight))
      && (Live(flight) && !Live(m.next) ==> !m.shared.entry.InFlight?)
  {
  }

  lemma FlightFrame(s: System, e: Event)
    requires IsFlightEvent(e)
    ensures var t := StepFlight(s, e);
      && (forall g: nat :: g != e.flight ==> At(t, g) == At(s, g))
      && (e.flight < |s.flights| ==>
            && At(t, e.flight) == Advance(s, At(s, e.flight), e).next
            && t.(flights := s.flights) == Advance(s, At(s, e.flight), e).shared.(flights := s.flights))
      && (e.flight >= |s.flights| ==> t == s)
  {
  }

  lemma FlightKeepsSingle(s: System, e: Event)
    requires SingleFlight(s) && IsFlightEvent(e)
    ensures SingleFlight(StepFlight(s, e))
  {
    var t, f := StepFlight(s, e), e.flight;
    FlightFrame(s, e);
    AdvanceFrame(s, At(s, f), e);
    forall g: nat, h: nat | Engaged(At(t, g)) && Engaged(At(t, h)) ensures g == h {
      assert g != f ==> Engaged(At(s, g));
      assert h != f ==> Engaged(At(s, h));
    }
    forall g: nat | t.running ensures Live(At(t, g)) <==> t.entry == InFlight(g) {
      assert Live(At(s, g)) <==> s.entry == InFlight(g);
      assert Live(At(s, f)) <==> s.entry == InFlight(f);
    }
  }

  lemma StepKeepsSingle(s: System, e: Event)
    requires SingleFlight(s)
    ensures SingleFlight(Step(s, e))
  {
    var t := Step(s, e);
    if IsFlightEvent(e) {
      FlightKeepsSingle(s, e);
    } else if e.CallStartsOrJoins? {
      assert forall f: nat :: At(t, f) == At(s, f) || (f == |s.flights| && At(t, f) == Checking);
    } else if e.Restart? {
      assert forall f: nat :: At(t, f) == Ended;
    } else {
      assert forall f: nat :: At(t, f) == At(s, f);
    }
  }

  // ---- after a success ----

  /** The latest successful hook was not followed by a failed reconciliation. */
  predicate Unbroken(log: seq<LogEntry>) {
    log != []
    && (var last := log[|log| - 1];
        last.HookSucceeds? || (!last.ReconcileFails? && Unbroken(log[..|log| - 1])))
  }

  predicate Satisfied(flight: Flight) {
    flight.Confirming? || flight.Clearing? || flight == Ending(Success)
  }

  /** While the attempt runs, the success is held by its flight or by the entry. */
  ghost predicate SuccessIsHeld(s: System) {
    Unbroken(s.log) ==>
      && (forall f: nat :: Engaged(At(s, f)) ==> Satisfied(At(s, f)))
      && (s.running ==> s.entry.SucceededEntry? || exists f: nat :: Satisfied(At(s, f)))
  }

  lemma UnbrokenSnoc(log: seq<LogEntry>, entry: LogEntry)
    ensures Unbroken(log + [entry]) <==> entry.HookSucceeds? || (!entry.ReconcileFails? && Unbroken(log))
  {
    assert (log + [entry])[..|log|] == log;
  }

  /** Every hook starts with no unbroken success behind it. */
  predicate Justified(log: seq<LogEntry>) {
    log == []
    || (Justified(log[..|log| - 1]) && (log[|log| - 1].HookStarts? ==> !Unbroken(log[..|log| - 1])))
  }

  lemma JustifiedSnoc(log: seq<LogEntry>, entry: LogEntry)
    requires Justified(log) && (entry.HookStarts? ==> !Unbroken(log))
    ensures Justified(log + [entry])
  {
    assert (log + [entry])[..|log|] == log;
  }

  /** One move of a flight, seen from the log. */
  lemma AdvanceLog(s: System, flight: Flight, e: Event)
    requires IsFlightEvent(e)
    ensures var m := Advance(s, flight, e);
      && (m.shared.log == s.log
          || (exists entry :: m.shared.log == s.log + [entry]
                && (entry.HookStarts? ==> flight.Ready?)
                && (entry.HookSucceeds? ==> m.next.Confirming?)
                && (entry.ReconcileFails? ==> IsReconcileError(e))))
      && (Unbroken(m.shared.log) ==> Unbroken(s.log) || m.next.Confirming?)
  {
    var m := Advance(s, flight, e);
    if m.shared.log != s.log {
      var entry := m.shared.log[|s.log|];
      assert m.shared.log == s.log + [entry];
      UnbrokenSnoc(s.log, entry);
    }
  }

  /** What becomes of a flight that holds a success, if the success stays unbroken. */
  lemma AdvanceSatisfied(s: System, flight: Flight, e: Event)
    requires IsFlightEvent(e) && Satisfied(flight)
    ensures var m := Advance(s, flight, e);
      Unbroken(m.shared.log) ==>
        || Satisfied(m.next)
        || (m.next == Ending(AlreadyTerminal) && !s.running)
        || (m.next.Ended? && m.shared.entry.SucceededEntry?)
  {
    var m := Advance(s, flight, e);
    if m.shared.log != s.log {
      assert m.shared.log == s.log + [ReconcileFails(e.flight)];
      UnbrokenSnoc(s.log, ReconcileFails(e.flight));
    }
  }

  /** While a success is held and the attempt runs, no other flight is live. */
  lemma HeldExcludes(s: System, f: nat)
    requires SingleFlight(s) && SuccessIsHeld(s) && Unbroken(s.log) && s.running && Live(At(s, f))
    ensures Satisfied(At(s, f))
  {
    assert s.entry == InFlight(f);
    var g: nat :| Satisfied(At(s, g));
    assert Live(At(s, g));
  }

  lemma FlightKeepsHeld(s: System, e: Event)
    requires SingleFlight(s) && SuccessIsHeld(s) && IsFlightEvent(e)
    ensures SuccessIsHeld(StepFlight(s, e))
  {
    var t, f := StepFlight(s, e), e.flight;
    FlightFrame(s, e);
    if f < |s.flights| && Unbroken(t.log) {
      AdvanceFrame(s, At(s, f), e);
      AdvanceLog(s, At(s, f), e);
      if !Unbroken(s.log) {
        assert Satisfied(At(t, f)) && Engaged(At(s, f));
      } else if Satisfied(At(s, f)) {
        AdvanceSatisfied(s, At(s, f), e);
        assert forall g: nat :: Engaged(At(t, g)) && g != f ==> Engaged(At(s, g));
      } else {
        OthersKeepHeld(s, e);
      }
    }
  }

  /** A flight that holds no success cannot be live while the attempt runs. */
  lemma OthersKeepHeld(s: System, e: Event)
    requires SingleFlight(s) && SuccessIsHeld(s) && IsFlightEvent(e) && e.flight < |s.flights|
    requires Unbroken(s.log) && !Satisfied(At(s, e.flight)) && Unbroken(StepFlight(s, e).log)
    ensures SuccessIsHeld(StepFlight(s, e))
  {
    var t, f := StepFlight(s, e), e.flight;
    FlightFrame(s, e);
    AdvanceFrame(s, At(s, f), e);
    assert !Engaged(At(s, f));
    if s.running {
      if Live(At(s, f)) {
        HeldExcludes(s, f);
        assert false;
      }
      if !s.entry.SucceededEntry? {
        var g: nat :| Satisfied(At(s, g));
        assert Satisfied(At(t, g));
      }
    }
  }

  /** Steps of calls, the finisher and a restart. */
  lemma OtherStepFrame(s: System, e: Event)
    requires !IsFlightEvent(e)
    ensures var t := Step(s, e);
      && t.log == s.log && t.error == s.error && t.requested == s.requested
      && (forall f: nat :: At(t, f) == At(s, f) || At(t, f).Ended? || (At(t, f).Checking? && At(s, f).Ended?))
      && (t.running ==> s.running && (t.entry == s.entry || s.entry.NoEntry? || s.finisher.Left?))
      && (t.running ==> forall f: nat :: At(t, f) == At(s, f) || At(t, f).Checking?)
  {
  }

  lemma OtherKeepsHeld(s: System, e: Event)
    requires SingleFlight(s) && SuccessIsHeld(s) && !IsFlightEvent(e)
    ensures SuccessIsHeld(Step(s, e))
  {
    var t := Step(s, e);
    OtherStepFrame(s, e);
    if Unbroken(s.log) && t.running && !s.entry.SucceededEntry? {
      var g: nat :| Satisfied(At(s, g));
      assert Live(At(s, g));
      assert Satisfied(At(t, g));
    }
  }

  lemma StepKeepsHeld(s: System, e: Event)
    requires SingleFlight(s) && SuccessIsHeld(s)
    ensures SuccessIsHeld(Step(s, e))
  {
    if IsFlightEvent(e) {
      FlightKeepsHeld(s, e);
    } else {
      OtherKeepsHeld(s, e);
    }
  }

  lemma FlightKeepsJustified(s: System, e: Event)
    requires SuccessIsHeld(s) && Justified(s.log) && IsFlightEvent(e)
    ensures Justified(StepFlight(s, e).log)
  {
    FlightFrame(s, e);
    if e.flight < |s.flights| {
      var flight, next := At(s, e.flight), StepFlight(s, e).log;
      AdvanceLog(s, flight, e);
      if next != s.log {
        var entry :| next == s.log + [entry] && (entry.HookStarts? ==> flight.Ready?);
        assert flight.Ready? ==> !Unbroken(s.log);
        JustifiedSnoc(s.log, entry);
      }
    }
  }

  lemma StepKeepsJustified(s: System, e: Event)
    requires SuccessIsHeld(s) && Justified(s.log)
    ensures Justified(Step(s, e).log)
  {
    if IsFlightEvent(e) {
      FlightKeepsJustified(s, e);
    } else {
      OtherStepFrame(s, e);
    }
  }

  // ---- failed hooks ----

  predicate LastIs(log: seq<LogEntry>, entry: LogEntry) {
    log != [] && log[|log| - 1] == entry
  }

  /** Past the persisted request and not yet ended. */
  predicate Admitted(flight: Flight) {
    Engaged(flight) && !flight.Requesting?
  }

  /** An admitted flight runs over a cleared error; one that ends on a failed hook has recorded it. */
  predicate RecordedBy(s: System, f: nat) {
    && (Admitted(At(s, f)) ==> s.requested && !s.error && !At(s, f).Clearing?)
    && (At(s, f).Recording? || At(s, f).Failing? ==> LastIs(s.log, HookFails(f)))
    && (s.running && At(s, f) == Ending(HookFailed) ==> s.error && s.requested && LastIs(s.log, HookFails(f)))
  }

  /** A recorded error is that of the latest hook. */
  ghost predicate FailureIsRecorded(s: System) {
    && (s.error ==> exists f: nat :: LastIs(s.log, HookFails(f)))
    && (forall f: nat :: RecordedBy(s, f))
  }

  /** What one step of a flight makes of the recorded error. */
  lemma AdvanceError(s: System, f: nat, e: Event)
    requires IsFlightEvent(e) && e.flight == f && FailureIsRecorded(s)
    ensures var m := Advance(s, At(s, f), e);
      && (!Engaged(At(s, f)) ==> m.shared.error == s.error && m.shared.requested == s.requested && m.shared.log == s.log)
      && (m.shared.error ==> exists g: nat :: LastIs(m.shared.log, HookFails(g)))
      && (Admitted(m.next) ==> m.shared.requested && !m.shared.error && !m.next.Clearing?)
      && (m.next.Recording? || m.next.Failing? ==> LastIs(m.shared.log, HookFails(f)))
      && (s.running && m.next == Ending(HookFailed) ==> m.shared.error && m.shared.requested && LastIs(m.shared.log, HookFails(f)))
  {
    assert RecordedBy(s, f);
  }

  /** While one flight writes, no other is engaged or, in a running attempt, live. */
  lemma OtherStaysRecorded(s: System, e: Event, g: nat)
    requires SingleFlight(s) && FailureIsRecorded(s) && IsFlightEvent(e) && e.flight < |s.flights| && g != e.flight
    ensures RecordedBy(StepFlight(s, e), g)
  {
    FlightFrame(s, e);
    AdvanceFrame(s, At(s, e.flight), e);
    AdvanceError(s, e.flight, e);
    assert RecordedBy(s, g);
    if Engaged(At(s, e.flight)) {
      assert !Engaged(At(s, g)) && (s.running ==> !Live(At(s, g)));
    }
  }

  lemma FlightKeepsRecorded(s: System, e: Event)
    requires SingleFlight(s) && FailureIsRecorded(s) && IsFlightEvent(e)
    ensures FailureIsRecorded(StepFlight(s, e))
  {
    FlightFrame(s, e);
    if e.flight < |s.flights| {
      AdvanceFrame(s, At(s, e.flight), e);
      AdvanceError(s, e.flight, e);
      forall g: nat ensures RecordedBy(StepFlight(s, e), g) {
        if g != e.flight {
          OtherStaysRecorded(s, e, g);
        }
      }
    }
  }

  lemma StepKeepsRecorded(s: System, e: Event)
    requires SingleFlight(s) && FailureIsRecorded(s)
    ensures FailureIsRecorded(Step(s, e))
  {
    if IsFlightEvent(e) {
      FlightKeepsRecorded(s, e);
    } else {
      OtherStepFrame(s, e);
      assert forall f: nat :: RecordedBy(s, f) ==> RecordedBy(Step(s, e), f);
    }
  }

  // ---- every run ----

  lemma {:induction false} InvHolds(version: nat, events: seq<Event>)
    ensures var s := Exec(version, events);
      SingleFlight(s) && SuccessIsHeld(s) && Justified(s.log) && FailureIsRecorded(s)
  {
    if events != [] {
      var s, e := Exec(version, events[..|events| - 1]), events[|events| - 1];
      InvHolds(version, events[..|events| - 1]);
      StepKeepsSingle(s, e);
      StepKeepsHeld(s, e);
      StepKeepsJustified(s, e);
      StepKeepsRecorded(s, e);
    }
  }

  /** Two hook invocations of one attempt never overlap, whatever happens to the map entry. */
  lemma HooksNeverOverlap(version: nat, events: seq<Event>, f: nat, g: nat)
    requires At(Exec(version, events), f).Hooking? && At(Exec(version, events), g).Hooking?
    ensures f == g
  {
    InvHolds(version, events);
  }

  /**
   Whatever the interleaving, a recorded error is that of the latest hook, no hook runs
   over one, and a success never has one to clear.
   */
  lemma ErrorIsLatest(version: nat, events: seq<Event>, f: nat)
    ensures var s := Exec(version, events);
      && (s.error ==> exists g: nat :: LastIs(s.log, HookFails(g)))
      && (At(s, f).Hooking? || At(s, f).Confirming? ==> s.requested && !s.error)
      && !At(s, f).Clearing?
  {
    InvHolds(version, events);
    assert RecordedBy(Exec(version, events), f);
  }

  lemma FlightStep(s: System, f: nat, e: Event)
    requires IsFlightEvent(e) && e.flight == f < |s.flights|
    ensures var m := Advance(s, At(s, f), e);
      && At(Step(s, e), f) == m.next && |Step(s, e).flights| == |s.flights|
      && Step(s, e).(flights := s.flights) == m.shared.(flights := s.flights)
  {
  }

  lemma HookEnds(s: System, f: nat, ok: bool)
    requires At(s, f).Hooking?
    ensures var t := Step(s, if ok then HookOk(f) else HookError(f));
      && At(t, f) == (if ok then Confirming else Recording)
      && t.log == s.log + [if ok then HookSucceeds(f) else HookFails(f)]
      && t.running == s.running && t.version == s.version && t.requested == s.requested && t.error == s.error
  {
    FlightStep(s, f, if ok then HookOk(f) else HookError(f));
  }

  lemma FailureIsWritten(s: System, f: nat)
    requires s.running && At(s, f).Recording?
    ensures var t := Step(Step(s, Record(f, false)), Fail(f, false));
      && At(t, f) == Ending(HookFailed) && t.log == s.log
      && t.running && t.error && t.requested && t.version == s.version + 1
  {
    FlightStep(s, f, Record(f, false));
    FlightStep(Step(s, Record(f, false)), f, Fail(f, false));
  }

  lemma FlightEnds(s: System, f: nat)
    requires At(s, f).Ending?
    ensures var t := Step(s, End(f));
      && !Live(At(t, f)) && t.entry == (if At(s, f) == Ending(Success) then SucceededEntry else NoEntry)
      && t.log == s.log && t.running == s.running && t.version == s.version
      && t.requested == s.requested && t.error == s.error
  {
    FlightStep(s, f, End(f));
  }

  /** A flight that meets a store error leaves no entry and a fault that turns every later call away until the restart. */
  lemma ServiceFailureLatches(s: System, f: nat, c: nat)
    requires At(s, f) == Ending(ServiceFailed)
    ensures var t := Step(Step(s, End(f)), LatchFault(f));
      && t.fault && t.entry.NoEntry? && At(t, f).Ended? && t.error == s.error && t.version == s.version
      && Step(t, CallReads(c)) == t
  {
    FlightStep(s, f, End(f));
    FlightStep(Step(s, End(f)), f, LatchFault(f));
  }

  /** A failed hook of a running attempt is recorded in one revision, and its entry is removed. */
  lemma FailedHook(s: System, f: nat)
    requires s.running && At(s, f).Hooking?
    ensures var t := Step(Step(Step(Step(s, HookError(f)), Record(f, false)), Fail(f, false)), End(f));
      && t.running && t.error && t.requested && t.version == s.version + 1
      && t.entry.NoEntry? && !Live(At(t, f)) && t.log == s.log + [HookFails(f)]
  {
    HookEnds(s, f, false);
    var failed := Step(s, HookError(f));
    FailureIsWritten(failed, f);
    FlightEnds(Step(Step(failed, Record(f, false)), Fail(f, false)), f);
  }

  lemma SuccessIsConfirmed(s: System, f: nat)
    requires s.running && !s.error && At(s, f).Confirming?
    ensures var t := Step(s, Confirm(f, false));
      At(t, f) == Ending(Success) && t.(flights := s.flights) == s
  {
    FlightStep(s, f, Confirm(f, false));
  }

  /** A successful hook of a running attempt writes nothing, and later calls join its success. */
  lemma SuccessfulHook(version: nat, events: seq<Event>, f: nat)
    requires Exec(version, events).running && At(Exec(version, events), f).Hooking?
    ensures var s := Exec(version, events);
      var t := Step(Step(Step(s, HookOk(f)), Confirm(f, false)), End(f));
      && t.running && !t.error && t.requested && t.version == s.version
      && t.entry.SucceededEntry? && !Live(At(t, f)) && t.log == s.log + [HookSucceeds(f)]
  {
    var s := Exec(version, events);
    ErrorIsLatest(version, events, f);
    HookEnds(s, f, true);
    SuccessIsConfirmed(Step(s, HookOk(f)), f);
    FlightEnds(Step(Step(s, HookOk(f)), Confirm(f, false)), f);
  }

  lemma SpawnReachesHook(s: System, c: nat)
    requires s.running && c in s.asking && s.entry.NoEntry?
    ensures var f := |s.flights|;
      var t := Step(Step(Step(Step(s, CallStartsOrJoins(c)), Check(f, false)), Request(f, false)), StartHook(f, true));
      && t.running && t.requested && !t.error && t.entry == InFlight(f)
      && At(t, f).Hooking? && t.log == s.log + [HookStarts(f)]
  {
    var f, a := |s.flights|, Step(s, CallStartsOrJoins(c));
    FlightStep(a, f, Check(f, false));
    var b := Step(a, Check(f, false));
    FlightStep(b, f, Request(f, false));
    FlightStep(Step(b, Request(f, false)), f, StartHook(f, true));
  }

  /**
   While the attempt runs, a call that finds neither a live flight nor a success starts
   a new hook, once the error of the last one is cleared.
   */
  lemma HookCanBeRetried(version: nat, events: seq<Event>, c: nat)
    requires var s := Exec(version, events);
      && s.running && c in s.asking && !s.entry.SucceededEntry?
      && forall f: nat :: !Live(At(s, f))
    ensures var s := Exec(version, events);
      var f := |s.flights|;
      var t := Step(Step(Step(Step(s, CallStartsOrJoins(c)), Check(f, false)), Request(f, false)), StartHook(f, true));
      && t.running && t.requested && !t.error && t.entry == InFlight(f)
      && At(t, f).Hooking? && t.log == s.log + [HookStarts(f)]
  {
    var s := Exec(version, events);
    InvHolds(version, events);
    assert s.entry.InFlight? ==> Live(At(s, s.entry.flight));
    SpawnReachesHook(s, c);
  }

  lemma {:induction false} JustifiedMeans(log: seq<LogEntry>, i: nat, j: nat)
    requires Justified(log) && i < j < |log| && log[i].HookSucceeds? && log[j].HookStarts?
    ensures exists k :: i < k < j && log[k].ReconcileFails?
    decreases |log|
  {
    var init := log[..|log| - 1];
    if j < |log| - 1 {
      JustifiedMeans(init, i, j);
      var k :| i < k < j && init[k].ReconcileFails?;
      assert log[k].ReconcileFails?;
    } else {
      BrokenAfter(init, i);
      var k :| i < k < |init| && init[k].ReconcileFails?;
      assert log[k].ReconcileFails?;
    }
  }

  lemma {:induction false} BrokenAfter(log: seq<LogEntry>, i: nat)
    requires i < |log| && log[i].HookSucceeds? && !Unbroken(log)
    ensures exists k :: i < k < |log| && log[k].ReconcileFails?
  {
    var last := log[|log| - 1];
    if last.ReconcileFails? {
      assert i < |log| - 1 && log[|log| - 1].ReconcileFails?;
    } else {
      var init := log[..|log| - 1];
      BrokenAfter(init, i);
      var k :| i < k < |init| && init[k].ReconcileFails?;
      assert log[k].ReconcileFails?;
    }
  }

  /** A hook starts after a successful one only if the store failed while that success was being reconciled. */
  lemma HookAfterSuccess(version: nat, events: seq<Event>, i: nat, j: nat)
    requires i < j < |Exec(version, events).log|
    requires Exec(version, events).log[i].HookSucceeds? && Exec(version, events).log[j].HookStarts?
    ensures exists k :: i < k < j && Exec(version, events).log[k].ReconcileFails?
  {
    InvHolds(version, events);
    JustifiedMeans(Exec(version, events).log, i, j);
  }

  // ---- exactly when success is final ----

  predicate NoHookAfterSuccess(log: seq<LogEntry>) {
    forall i, j :: 0 <= i < j < |log| && log[i].HookSucceeds? ==> !log[j].HookStarts?
  }

  /** Store errors between a successful hook and its recorded result. */
  predicate IsReconcileError(e: Event) {
    (e.Confirm? || e.Clear?) && e.storeFails
  }

  predicate Admits(mayFail: bool, events: seq<Event>) {
    mayFail || forall e :: e in events ==> !IsReconcileError(e)
  }

  lemma StepNeverBreaks(s: System, e: Event)
    requires !IsReconcileError(e) && forall k :: 0 <= k < |s.log| ==> !s.log[k].ReconcileFails?
    ensures forall k :: 0 <= k < |Step(s, e).log| ==> !Step(s, e).log[k].ReconcileFails?
  {
    if IsFlightEvent(e) && e.flight < |s.flights| {
      AdvanceLog(s, At(s, e.flight), e);
    }
  }

  lemma {:induction false} ReliableNeverBreaks(version: nat, events: seq<Event>)
    requires Admits(false, events)
    ensures forall k :: 0 <= k < |Exec(version, events).log| ==> !Exec(version, events).log[k].ReconcileFails?
  {
    if events != [] {
      var e := events[|events| - 1];
      assert e in events && forall x :: x in events[..|events| - 1] ==> x in events;
      ReliableNeverBreaks(version, events[..|events| - 1]);
      StepNeverBreaks(Exec(version, events[..|events| - 1]), e);
    }
  }

  /** The run of a counterexample, a prefix at a time. */
  const FIRST_HOOK: seq<Event> := [
    CallReads(0), CallReads(1), CallStartsOrJoins(0), Check(0, false), Request(0, false), StartHook(0, true)]
  const LOST_SUCCESS: seq<Event> := FIRST_HOOK + [HookOk(0), Confirm(0, true), End(0)]
  const SECOND_HOOK: seq<Event> := LOST_SUCCESS + [CallStartsOrJoins(1), Check(1, false), StartHook(1, true)]

  lemma ExecAppend(version: nat, events: seq<Event>, e: Event)
    ensures Exec(version, events + [e]) == Step(Exec(version, events), e)
  {
    assert (events + [e])[..|events|] == events;
  }

  lemma ExecAppend3(version: nat, events: seq<Event>, a: Event, b: Event, c: Event)
    ensures Exec(version, events + [a, b, c]) == Step(Step(Step(Exec(version, events), a), b), c)
  {
    ExecAppend(version, events, a);
    ExecAppend(version, events + [a], b);
    assert events + [a] + [b] == events + [a, b];
    ExecAppend(version, events + [a, b], c);
    assert events + [a, b] + [c] == events + [a, b, c];
  }

  lemma SpawnFlight(s: System)
    requires s.running && !s.fault && s.entry.NoEntry? && s.flights == [] && s.asking == {}
    ensures var t := Step(Step(Step(s, CallReads(0)), CallReads(1)), CallStartsOrJoins(0));
      && t.running && t.requested == s.requested && t.flights == [Checking] && t.asking == {1} && t.finisher == s.finisher
  {
  }

  lemma ReachHook(s: System)
    requires s.running && !s.requested && s.flights == [Checking]
    ensures var t := Step(Step(Step(s, Check(0, false)), Request(0, false)), StartHook(0, true));
      && t.running && t.requested && !t.error && t.flights == [Hooking] && t.asking == s.asking && t.finisher == s.finisher
  {
  }

  lemma FirstHook(version: nat)
    ensures var s := Exec(version, FIRST_HOOK);
      s.running && s.requested && !s.error && s.flights == [Hooking] && s.asking == {1} && s.finisher.Executing?
  {
    var spawned := [CallReads(0), CallReads(1), CallStartsOrJoins(0)];
    ExecAppend3(version, [], CallReads(0), CallReads(1), CallStartsOrJoins(0));
    assert [] + spawned == spawned;
    SpawnFlight(Initial(version));
    ExecAppend3(version, spawned, Check(0, false), Request(0, false), StartHook(0, true));
    ReachHook(Exec(version, spawned));
    assert FIRST_HOOK == spawned + [Check(0, false), Request(0, false), StartHook(0, true)];
  }

  lemma LoseSuccess(s: System)
    requires s.running && s.requested && !s.error && s.flights == [Hooking]
    ensures var t := Step(Step(Step(s, HookOk(0)), Confirm(0, true)), End(0));
      && t.running && t.requested && !t.error && t.entry.NoEntry? && t.flights == [Latching] && t.asking == s.asking
      && t.log == s.log + [HookSucceeds(0), ReconcileFails(0)]
  {
  }

  lemma HookAgain(s: System)
    requires s.running && s.requested && !s.error && s.entry.NoEntry? && s.flights == [Latching] && 1 in s.asking
    ensures Step(Step(Step(s, CallStartsOrJoins(1)), Check(1, false)), StartHook(1, true)).log == s.log + [HookStarts(1)]
  {
    assert Step(s, CallStartsOrJoins(1)).flights == [Latching, Checking];
  }

  /** A store error after the first success removes the entry; a call that read the task earlier starts a second hook. */
  lemma SecondHook(version: nat)
    ensures !NoHookAfterSuccess(Exec(version, SECOND_HOOK).log)
  {
    var s := Exec(version, FIRST_HOOK);
    FirstHook(version);
    LoseSuccess(s);
    ExecAppend3(version, FIRST_HOOK, HookOk(0), Confirm(0, true), End(0));
    HookAgain(Exec(version, LOST_SUCCESS));
    ExecAppend3(version, LOST_SUCCESS, CallStartsOrJoins(1), Check(1, false), StartHook(1, true));
    var log := Exec(version, SECOND_HOOK).log;
    assert log[|s.log|].HookSucceeds? && log[|s.log| + 2].HookStarts?;
  }

  /** Success is final in every run exactly if the store never fails while a success is being reconciled. */
  lemma SuccessIsFinalIff(version: nat, mayFail: bool)
    ensures (forall events :: Admits(mayFail, events) ==> NoHookAfterSuccess(Exec(version, events).log)) <==> !mayFail
  {
    if mayFail {
      SecondHook(version);
      assert Admits(mayFail, SECOND_HOOK);
    } else {
      forall events | Admits(mayFail, events) ensures NoHookAfterSuccess(Exec(version, events).log) {
        ReliableNeverBreaks(version, events);
        var log := Exec(version, events).log;
        forall i, j | 0 <= i < j < |log| && log[i].HookSucceeds? ensures !log[j].HookStarts? {
          if log[j].HookStarts? {
            HookAfterSuccess(version, events, i, j);
          }
        }
      }
    }
  }

  // ---- what a finished attempt leaves behind ----

  ghost predicate SuccessOver(s: System) {
    !s.running && !s.entry.SucceededEntry? && forall f: nat :: At(s, f) != Ending(Success)
  }

  lemma AdvanceOver(s: System, flight: Flight, e: Event)
    requires IsFlightEvent(e) && !s.running && flight != Ending(Success)
    ensures var m := Advance(s, flight, e);
      m.next != Ending(Success) && !m.shared.running && (m.shared.entry == s.entry || m.shared.entry.NoEntry?)
  {
  }

  /** Once the attempt is over, no flight turns into a success any more. */
  lemma StepKeepsOver(s: System, e: Event)
    requires SuccessOver(s)
    ensures SuccessOver(Step(s, e))
  {
    if IsFlightEvent(e) {
      FlightFrame(s, e);
      AdvanceOver(s, At(s, e.flight), e);
    } else {
      OtherStepFrame(s, e);
      forall f: nat ensures At(Step(s, e), f) != Ending(Success) {
        assert At(s, f) != Ending(Success);
      }
    }
  }

  lemma {:induction false} OverForEver(version: nat, before: seq<Event>, after: seq<Event>)
    requires SuccessOver(Exec(version, before))
    ensures SuccessOver(Exec(version, before + after))
    decreases |after|
  {
    if after == [] {
      assert before + after == before;
    } else {
      var init := after[..|after| - 1];
      assert (before + after)[..|before + after| - 1] == before + init;
      OverForEver(version, before, init);
      StepKeepsOver(Exec(version, before + init), after[|after| - 1]);
    }
  }

  ghost predicate Leaks(version: nat, events: seq<Event>) {
    Exec(version, events).entry.SucceededEntry?
  }

  lemma LateSuccessLeaks(version: nat, events: seq<Event>, f: nat)
    requires Exec(version, events).finisher.Left? && At(Exec(version, events), f) == Ending(Success)
    ensures Leaks(version, events + [RemoveEntry] + [End(f)])
  {
    ExecAppend(version, events, RemoveEntry);
    ExecAppend(version, events + [RemoveEntry], End(f));
    FlightEnds(Step(Exec(version, events), RemoveEntry), f);
  }

  lemma RemovedForEver(version: nat, events: seq<Event>, more: seq<Event>)
    requires Exec(version, events).finisher.Left? && forall f: nat :: At(Exec(version, events), f) != Ending(Success)
    ensures !Leaks(version, events + [RemoveEntry] + more)
  {
    InvHolds(version, events);
    ExecAppend(version, events, RemoveEntry);
    var t := Step(Exec(version, events), RemoveEntry);
    assert forall f: nat :: At(t, f) == At(Exec(version, events), f);
    OverForEver(version, events + [RemoveEntry], more);
  }

  /**
   The finishing handler removes the entry of its attempt. A success entry can come back
   after that, and then for good, exactly if a flight was about to store one.
   */
  lemma LeaksIff(version: nat, events: seq<Event>)
    requires Exec(version, events).finisher.Left?
    ensures (exists more :: Leaks(version, events + [RemoveEntry] + more))
       <==> exists f: nat :: At(Exec(version, events), f) == Ending(Success)
  {
    if f: nat :| At(Exec(version, events), f) == Ending(Success) {
      LateSuccessLeaks(version, events, f);
      assert Leaks(version, events + [RemoveEntry] + [End(f)]);
    } else {
      forall more ensures !Leaks(version, events + [RemoveEntry] + more) {
        RemovedForEver(version, events, more);
      }
    }
  }

  const LATE_SUCCESS: seq<Event> := FIRST_HOOK + [HookOk(0), Confirm(0, false), ReadToFinish]

  lemma SucceedThenRead(s: System)
    requires s.running && !s.error && s.flights == [Hooking] && s.finisher.Executing?
    ensures var t := Step(Step(Step(s, HookOk(0)), Confirm(0, false)), ReadToFinish);
      t.running && t.flights == [Ending(Success)] && t.finisher == Finishing(t.version)
  {
  }

  lemma FinishThenEnd(s: System)
    requires s.running && s.flights == [Ending(Success)] && s.finisher == Finishing(s.version)
    ensures var t := Step(Step(Step(s, Finish), RemoveEntry), End(0));
      !t.running && t.finisher.Finished? && t.entry.SucceededEntry? && t.flights == [Ended]
  {
  }

  /** A run in which the entry of a finished attempt stays in the map. */
  lemma SuccessEntryLeaks(version: nat)
    ensures var s := Exec(version, LATE_SUCCESS + [Finish, RemoveEntry, End(0)]);
      !s.running && s.finisher.Finished? && s.entry.SucceededEntry? && s.flights == [Ended]
  {
    FirstHook(version);
    ExecAppend3(version, FIRST_HOOK, HookOk(0), Confirm(0, false), ReadToFinish);
    SucceedThenRead(Exec(version, FIRST_HOOK));
    ExecAppend3(version, LATE_SUCCESS, Finish, RemoveEntry, End(0));
    FinishThenEnd(Exec(version, LATE_SUCCESS));
  }
}
