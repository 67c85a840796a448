/**
 The cooperative cancellation signal of one running attempt. A cancel call reads
 the record, persists the request by compare-and-set and then looks the attempt's
 flag up; the runner registers the flag, reads the record once more and sets the
 flag if it finds a request. A caller may abandon a cancel call at any point: a
 write already handed to the store commits, the lookup does not happen.

 Each event is one atomic step; an event whose guard does not hold changes nothing.
 */
module CancelSignals {
  import opened TaskStates

  /** One cancel call. `Saw` holds what it read; `Wrote` means it persisted the request and has not looked up yet. */
  datatype Call = Fresh | Saw(version: nat, requested: bool) | Wrote | Returned | Abandoned

  datatype Runner =
    | Loading                  // attempt started, flag not registered
    | Registered               // flag in the map, record not read again
    | Reread(saw: bool)        // read again, flag not updated yet
    | Executing                // the handler runs
    | Unregistered             // flag removed, outcome not persisted
    | Finishing(version: nat)  // record read, outcome about to be written over that version
    | Over

  datatype System = System(
    running: bool,
    version: nat,
    requested: bool,
    calls: map<nat, Call>,
    runner: Runner,
    flag: bool,
    writer: Option<nat>,       // the call that persisted the request
    found: Option<bool>)       // what the runner's second read saw

  datatype Event =
    | ReadTask(call: nat)
    | Persist(call: nat)
    | Lookup(call: nat)
    | Abandon(call: nat)
    | Register
    | ReadAgain
    | Update
    | HandlerReturns
    | ReadToFinish
    | Finish
    | RunnerQuits

  function Initial(version: nat): System {
    System(true, version, false, map[], Loading, false, None, None)
  }

  function CallOf(s: System, c: nat): Call {
    if c in s.calls then s.calls[c] else Fresh
  }

  predicate IsRegistered(s: System) {
    s.runner.Registered? || s.runner.Reread? || s.runner.Executing?
  }

  function Step(s: System, e: Event): System {
    match e
    case ReadTask(c) =>
      if CallOf(s, c).Fresh?
      then s.(calls := s.calls[c := if s.running then Saw(s.version, s.requested) else Returned]) else s
    case Persist(c) =>
      if !CallOf(s, c).Saw? then s
      else if CallOf(s, c).requested || CallOf(s, c).version != s.version || !s.running
      then s.(calls := s.calls[c := Returned])
      else s.(requested := true, version := s.version + 1, writer := Some(c), calls := s.calls[c := Wrote])
    case Lookup(c) =>
      if CallOf(s, c).Wrote? then s.(flag := s.flag || IsRegistered(s), calls := s.calls[c := Returned]) else s
    case Abandon(c) => if CallOf(s, c).Returned? then s else s.(calls := s.calls[c := Abandoned])
    case Register => if s.runner.Loading? then s.(runner := Registered) else s
    case ReadAgain => if s.runner.Registered? then s.(runner := Reread(s.requested), found := Some(s.requested)) else s
    case Update => if s.runner.Reread? then s.(runner := Executing, flag := s.flag || s.runner.saw) else s
    case HandlerReturns => if s.runner.Executing? then s.(runner := Unregistered) else s
    case ReadToFinish => if s.runner.Unregistered? then s.(runner := Finishing(s.version)) else s
    case Finish =>
      if !s.runner.Finishing? then s
      else if s.runner.version != s.version then s.(runner := Over)
      else s.(runner := Over, running := false, version := s.version + 1)
    case RunnerQuits => if s.runner.Loading? || s.runner.Registered? then s.(runner := Over) else s
  }

  function Exec(version: nat, events: seq<Event>): System {
    if events == [] then Initial(version) else Step(Exec(version, events[..|events| - 1]), events[|events| - 1])
  }

  // ---- invariants ----

  ghost predicate CallsOk(s: System) {
    && (s.requested <==> s.writer.Some?)
    && (forall c: nat :: CallOf(s, c).Saw? ==> CallOf(s, c).version <= s.version)
    && (forall c: nat :: CallOf(s, c).Saw? && s.requested && CallOf(s, c).version == s.version ==> CallOf(s, c).requested)
    && (forall c: nat :: CallOf(s, c).Wrote? ==> s.writer == Some(c))
    && (s.writer.Some? ==> CallOf(s, s.writer.value).Wrote? || CallOf(s, s.writer.value).Returned?
                           || CallOf(s, s.writer.value).Abandoned?)
  }

  predicate WriterReturned(s: System) {
    s.writer.Some? && CallOf(s, s.writer.value).Returned?
  }

  predicate Found(s: System) {
    s.found.Some? && s.found.value
  }

  predicate Missed(s: System) {
    s.found.Some? && !s.found.value
  }

  ghost predicate FlagOk(s: System) {
    && (s.flag ==> s.requested && (Found(s) || WriterReturned(s)))
    && (Found(s) ==> s.requested)
    && (s.runner.Loading? || s.runner.Registered? ==> s.found.None?)
    && (s.runner.Reread? ==> s.found.Some? && s.found.value == s.runner.saw)
    && (s.runner.Executing? ==> s.found.Some?)
    && (s.runner.Executing? && Found(s) ==> s.flag)
    && (IsRegistered(s) && Missed(s) && WriterReturned(s) ==> s.flag)
  }

  lemma {:induction false} InvHolds(version: nat, events: seq<Event>)
    ensures CallsOk(Exec(version, events)) && FlagOk(Exec(version, events))
  {
    if events != [] {
      InvHolds(version, events[..|events| - 1]);
      var s, e := Exec(version, events[..|events| - 1]), events[|events| - 1];
      StepKeepsCalls(s, e);
      StepKeepsFlag(s, e);
    }
  }

  lemma StepKeepsCalls(s: System, e: Event)
    requires CallsOk(s)
    ensures CallsOk(Step(s, e))
  {
    var t := Step(s, e);
    if e.ReadTask? || e.Persist? || e.Lookup? || e.Abandon? {
      assert forall c: nat :: c != e.call ==> CallOf(t, c) == CallOf(s, c);
    } else {
      assert forall c: nat :: CallOf(t, c) == CallOf(s, c);
    }
  }

  lemma StepKeepsFlag(s: System, e: Event)
    requires CallsOk(s) && FlagOk(s)
    ensures FlagOk(Step(s, e))
  {
    var t := Step(s, e);
    if e.ReadTask? || e.Persist? || e.Lookup? || e.Abandon? {
      assert forall c: nat :: c != e.call ==> CallOf(t, c) == CallOf(s, c);
    }
  }

  // ---- results ----

  /** The service never raises the flag before the request is persisted. */
  lemma NeverBeforePersisted(version: nat, events: seq<Event>)
    ensures Exec(version, events).flag ==> Exec(version, events).requested
  {
    InvHolds(version, events);
  }

  /**
   No lost signal: in every interleaving, once the call that persisted the request
   has returned and the runner has read again and updated, the flag of the still
   registered attempt is set.
   */
  lemma NoLostSignal(version: nat, events: seq<Event>)
    ensures var s := Exec(version, events);
      s.runner.Executing? && WriterReturned(s) ==> s.flag
  {
    InvHolds(version, events);
  }

  /**
   A persisted request whose writer is no longer on its way to the flag: the
   executing handler sees it exactly if the runner's second read found it or the
   writer was not abandoned.
   */
  lemma SignalledIff(version: nat, events: seq<Event>)
    ensures var s := Exec(version, events);
      s.runner.Executing? && s.writer.Some? && !CallOf(s, s.writer.value).Wrote? ==>
        (s.flag <==> Found(s) || !CallOf(s, s.writer.value).Abandoned?)
  {
    InvHolds(version, events);
  }

  /** An abandoned writer loses the signal, and a second cancel call returns success without repairing it. */
  lemma AbandonedWriterLosesSignal(version: nat)
    ensures var s := Exec(version, [Register, ReadAgain, Update, ReadTask(0), Persist(0), Abandon(0), ReadTask(1), Persist(1)]);
      s.runner.Executing? && s.requested && CallOf(s, 1).Returned? && !s.flag
  {
    var es := [Register, ReadAgain, Update, ReadTask(0), Persist(0), Abandon(0), ReadTask(1), Persist(1)];
    assert es[..0] == [];
    ExecStep(version, es, 1);
    ExecStep(version, es, 2);
    ExecStep(version, es, 3);
    ExecStep(version, es, 4);
    ExecStep(version, es, 5);
    ExecStep(version, es, 6);
    ExecStep(version, es, 7);
    ExecStep(version, es, 8);
    assert es[..8] == es;
  }

  lemma ExecStep(version: nat, events: seq<Event>, n: nat)
    requires 1 <= n <= |events|
    ensures Exec(version, events[..n]) == Step(Exec(version, events[..n - 1]), events[n - 1])
  {
    assert events[..n][..n - 1] == events[..n - 1];
  }

  // ---- finishing ----

  /** Every change of the record raises its version, and a finisher keeps the version it read. */
  lemma StepRecord(s: System, e: Event)
    ensures var t := Step(s, e);
      && s.version <= t.version
      && (s.version == t.version ==> s.requested == t.requested && s.running == t.running)
      && (s.runner.Finishing? || s.runner.Over? ==> t.runner == s.runner || t.runner.Over?)
      && (s.runner.Unregistered? && e.ReadToFinish? ==> t.runner == Finishing(s.version))
  {
  }

  /** The record was not written since `s`, unless its version rose. */
  predicate Unwritten(s: System, t: System) {
    && s.version <= t.version
    && (s.version == t.version ==> s.requested == t.requested && s.running == t.running)
  }

  lemma {:induction false} SameVersionSameRecord(version: nat, events: seq<Event>, i: nat)
    requires i <= |events|
    ensures Unwritten(Exec(version, events[..i]), Exec(version, events))
    decreases |events|
  {
    if i == |events| {
      assert events[..i] == events;
    } else {
      var init := events[..|events| - 1];
      assert init[..i] == events[..i];
      SameVersionSameRecord(version, init, i);
      StepRecord(Exec(version, init), events[|events| - 1]);
    }
  }

  /** From its read on, the finisher holds the version it read until it is over. */
  lemma {:induction false} FinisherHoldsRead(version: nat, events: seq<Event>, i: nat)
    requires i < |events| && events[i].ReadToFinish? && Exec(version, events[..i]).runner.Unregistered?
    ensures var t := Exec(version, events);
      t.runner == Finishing(Exec(version, events[..i]).version) || t.runner.Over?
    decreases |events|
  {
    var init := events[..|events| - 1];
    StepRecord(Exec(version, init), events[|events| - 1]);
    if i == |events| - 1 {
      assert init == events[..i];
    } else {
      assert init[..i] == events[..i];
      FinisherHoldsRead(version, init, i);
    }
  }

  /** An attempt ends only on a record whose request is still as the finisher read it: no request is overwritten unseen. */
  lemma FinishSawRequest(version: nat, events: seq<Event>, i: nat)
    requires i < |events| && events[i].ReadToFinish? && Exec(version, events[..i]).runner.Unregistered?
    requires Exec(version, events).running && !Exec(version, events + [Finish]).running
    ensures Exec(version, events).requested == Exec(version, events[..i]).requested
  {
    assert (events + [Finish])[..|events|] == events;
    FinisherHoldsRead(version, events, i);
    SameVersionSameRecord(version, events, i);
  }
}
