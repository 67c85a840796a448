/**
 Store ownership. Acquiring hands out a fresh epoch; releasing clears the owner
 only for the current epoch. A release may be in the store's hands after its
 caller gave up, a guard dropped while armed queues a cleanup job, and so several
 release requests for one epoch may run, in any order and arbitrarily late. A
 service start given up while the store acquires leaves an owner without a guard.

 Each event is one atomic step; an event whose guard does not hold changes nothing.
 */
module Ownership {
  import opened TaskStates
  import opened TaskRecords

  /** `last` is the latest epoch ever issued; it survives the process. */
  datatype Register = Register(last: nat, owner: Option<nat>)

  function Acquired(r: Register): Register {
    Register(r.last + 1, Some(r.last + 1))
  }

  predicate CanAcquire(r: Register, limit: nat) {
    r.owner.None? && r.last < limit
  }

  function AfterRelease(r: Register, epoch: nat): Register {
    if r.owner == Some(epoch) then r.(owner := None) else r
  }

  datatype Guard = Guard(epoch: nat, armed: bool)

  datatype Note = Acquires(epoch: nat) | Releases(epoch: nat) | Dies

  /** `requests` are release requests in the store's or the cleanup worker's hands, by epoch. */
  datatype System = System(limit: nat, register: Register, guards: seq<Guard>, requests: multiset<nat>, log: seq<Note>)

  datatype Event =
    | Acquire
    | AcquireAbandoned                // the caller gave up, the store acquired
    | AcquireFails(counted: bool)     // the store failed before or after it counted the epoch
    | RequestRelease(guard: nat)
    | Disarm(guard: nat)
    | DropGuard(guard: nat, queued: bool)
    | Serve(epoch: nat)
    | ServeFails(epoch: nat)
    | Die

  function Initial(limit: nat): System {
    System(limit, Register(0, None), [], multiset{}, [])
  }

  predicate IsArmed(s: System, g: nat) {
    g < |s.guards| && s.guards[g].armed
  }

  function Step(s: System, e: Event): System {
    match e
    case Acquire =>
      if CanAcquire(s.register, s.limit)
      then s.(register := Acquired(s.register), guards := s.guards + [Guard(s.register.last + 1, true)],
              log := s.log + [Acquires(s.register.last + 1)])
      else s
    case AcquireAbandoned =>
      if CanAcquire(s.register, s.limit)
      then s.(register := Acquired(s.register), log := s.log + [Acquires(s.register.last + 1)])
      else s
    case AcquireFails(counted) =>
      if counted && CanAcquire(s.register, s.limit) then s.(register := s.register.(last := s.register.last + 1)) else s
    case RequestRelease(g) =>
      if IsArmed(s, g) then s.(requests := s.requests + multiset{s.guards[g].epoch}) else s
    case Disarm(g) =>
      if IsArmed(s, g) && s.register.owner != Some(s.guards[g].epoch)
      then s.(guards := s.guards[g := s.guards[g].(armed := false)]) else s
    case DropGuard(g, queued) =>
      if !IsArmed(s, g) then s
      else s.(guards := s.guards[g := s.guards[g].(armed := false)],
              requests := if queued then s.requests + multiset{s.guards[g].epoch} else s.requests)
    case Serve(epoch) =>
      if epoch !in s.requests then s
      else s.(requests := s.requests - multiset{epoch}, register := AfterRelease(s.register, epoch),
              log := if s.register.owner == Some(epoch) then s.log + [Releases(epoch)] else s.log)
    case ServeFails(epoch) => if epoch in s.requests then s.(requests := s.requests - multiset{epoch}) else s
    case Die =>
      s.(register := s.register.(owner := None), guards := [], requests := multiset{}, log := s.log + [Dies])
  }

  function Exec(limit: nat, events: seq<Event>): System {
    if events == [] then Initial(limit) else Step(Exec(limit, events[..|events| - 1]), events[|events| - 1])
  }

  // ---- what the log of acquisitions and releases shows ----

  /** The owner according to the log. */
  function Holder(log: seq<Note>): Option<nat> {
    if log == [] then None
    else match log[|log| - 1]
      case Acquires(epoch) => Some(epoch)
      case Releases(_) => None
      case Dies => None
  }

  /** Owners never overlap, only the current owner's epoch is ever released, and epochs strictly increase. */
  ghost predicate Fenced(log: seq<Note>) {
    && (forall i :: 0 <= i < |log| && log[i].Acquires? ==> Holder(log[..i]).None?)
    && (forall i :: 0 <= i < |log| && log[i].Releases? ==> Holder(log[..i]) == Some(log[i].epoch))
    && (forall i, j :: 0 <= i < j < |log| && log[i].Acquires? && log[j].Acquires? ==> log[i].epoch < log[j].epoch)
  }

  ghost predicate Inv(s: System) {
    && Fenced(s.log)
    && s.register.owner == Holder(s.log)
    && (forall i :: 0 <= i < |s.log| && s.log[i].Acquires? ==> s.log[i].epoch <= s.register.last)
  }

  lemma FencedSnoc(log: seq<Note>, note: Note)
    requires Fenced(log)
    requires note.Acquires? ==>
               Holder(log).None? && forall i :: 0 <= i < |log| && log[i].Acquires? ==> log[i].epoch < note.epoch
    requires note.Releases? ==> Holder(log) == Some(note.epoch)
    ensures Fenced(log + [note])
  {
    var next := log + [note];
    forall i | 0 <= i < |next| ensures next[..i] == if i == |log| then log else log[..i] {
      assert i == |log| ==> next[..i] == log;
    }
  }

  /** A step logs nothing, or one note that the register justifies. */
  lemma StepNote(s: System, e: Event)
    ensures var t := Step(s, e);
      && ((t.log == s.log && t.register.owner == s.register.owner) || exists note :: Notes(s, t, note))
      && s.register.last <= t.register.last
  {
    var t := Step(s, e);
    if t.log != s.log {
      assert Notes(s, t, t.log[|s.log|]);
    }
  }

  predicate Notes(s: System, t: System, note: Note) {
    && t.log == s.log + [note]
    && (match note
        case Acquires(epoch) => s.register.owner.None? && epoch == s.register.last + 1 == t.register.last && t.register.owner == Some(epoch)
        case Releases(epoch) => s.register.owner == Some(epoch) && t.register.owner.None?
        case Dies => t.register.owner.None?)
  }

  lemma StepKeepsInv(s: System, e: Event)
    requires Inv(s)
    ensures Inv(Step(s, e))
  {
    var t := Step(s, e);
    StepNote(s, e);
    if t.log != s.log {
      var note :| Notes(s, t, note);
      FencedSnoc(s.log, note);
    }
  }

  /** Owner fencing, over every run of acquires, releases, abandoned releases, dropped guards, duplicate jobs and deaths. */
  lemma {:induction false} OwnersAreFenced(limit: nat, events: seq<Event>)
    ensures Fenced(Exec(limit, events).log)
    ensures Exec(limit, events).register.owner == Holder(Exec(limit, events).log)
    ensures Inv(Exec(limit, events))
  {
    if events != [] {
      OwnersAreFenced(limit, events[..|events| - 1]);
      StepKeepsInv(Exec(limit, events[..|events| - 1]), events[|events| - 1]);
    }
  }

  lemma StepNeverReissues(s: System, e: Event, epoch: nat)
    requires epoch <= s.register.last && s.register.owner != Some(epoch)
    ensures epoch <= Step(s, e).register.last && Step(s, e).register.owner != Some(epoch)
  {
  }

  /**
   An epoch that was issued and is not the current owner's never becomes the owner
   again, so a release request that still carries it can clear nobody.
   */
  lemma {:induction false} StaleForEver(limit: nat, before: seq<Event>, after: seq<Event>, epoch: nat)
    requires Acquires(epoch) in Exec(limit, before).log && Exec(limit, before).register.owner != Some(epoch)
    ensures var s := Exec(limit, before + after);
      && epoch <= s.register.last && s.register.owner != Some(epoch)
      && Step(s, Serve(epoch)).register == s.register
    decreases |after|
  {
    if after == [] {
      OwnersAreFenced(limit, before);
      assert before + after == before;
    } else {
      var init := after[..|after| - 1];
      assert (before + after)[..|before + after| - 1] == before + init;
      StaleForEver(limit, before, init, epoch);
      StepNeverReissues(Exec(limit, before + init), after[|after| - 1], epoch);
    }
  }

  // ---- whether somebody will still release the owner ----

  predicate Guards(s: System, g: nat, epoch: nat) {
    IsArmed(s, g) && s.guards[g].epoch == epoch
  }

  ghost predicate Guarded(s: System, epoch: nat) {
    exists g: nat :: Guards(s, g, epoch)
  }

  /** An armed guard or a release under way will free the epoch. */
  ghost predicate Attended(s: System, epoch: nat) {
    Guarded(s, epoch) || epoch in s.requests
  }

  /** One guard per epoch, and nothing speaks of an epoch that was not issued. */
  ghost predicate GuardsOk(s: System) {
    && (forall g :: 0 <= g < |s.guards| ==> s.guards[g].epoch <= s.register.last)
    && (forall g, h :: 0 <= g < h < |s.guards| ==> s.guards[g].epoch != s.guards[h].epoch)
    && (forall epoch :: epoch in s.requests ==> epoch <= s.register.last)
  }

  /** Only an acquisition adds a guard, and only a death removes one; epochs on guards never change. */
  lemma GuardEpochs(s: System, e: Event)
    requires !e.Acquire? && !e.Die?
    ensures var t := Step(s, e);
      && |t.guards| == |s.guards|
      && forall g :: 0 <= g < |s.guards| ==> t.guards[g].epoch == s.guards[g].epoch
  {
  }

  lemma StepKeepsRequests(s: System, e: Event)
    requires GuardsOk(s)
    ensures forall epoch :: epoch in Step(s, e).requests ==> epoch <= s.register.last
  {
    var t := Step(s, e);
    forall epoch | epoch in t.requests && epoch !in s.requests ensures epoch <= s.register.last {
      assert (e.RequestRelease? || e.DropGuard?) && epoch == s.guards[e.guard].epoch;
    }
  }

  lemma StepKeepsGuards(s: System, e: Event)
    requires GuardsOk(s)
    ensures GuardsOk(Step(s, e))
  {
    StepKeepsRequests(s, e);
    if !e.Acquire? && !e.Die? {
      GuardEpochs(s, e);
    }
  }

  lemma {:induction false} GuardsHold(limit: nat, events: seq<Event>)
    ensures GuardsOk(Exec(limit, events))
  {
    if events != [] {
      GuardsHold(limit, events[..|events| - 1]);
      StepKeepsGuards(Exec(limit, events[..|events| - 1]), events[|events| - 1]);
    }
  }

  /**
   The events that leave the owner `epoch` to nobody: an acquisition whose caller gave
   up, the refusal of the last guard's job with no release under way, and the failure
   of the last release with no guard left.
   */
  ghost predicate Loses(s: System, e: Event, epoch: nat) {
    match e
    case AcquireAbandoned => CanAcquire(s.register, s.limit) && epoch == s.register.last + 1
    case DropGuard(g, queued) => !queued && Guards(s, g, epoch) && epoch !in s.requests
    case ServeFails(x) => x == epoch && s.requests[epoch] == 1 && !Guarded(s, epoch)
    case _ => false
  }

  /** Who guards `epoch` after a step that keeps it the owner. */
  lemma GuardStep(s: System, e: Event, epoch: nat)
    requires GuardsOk(s) && Step(s, e).register.owner == Some(epoch)
    ensures var t := Step(s, e);
      Guarded(t, epoch) <==>
        || (e.Acquire? && s.register.owner.None?)
        || (Guarded(s, epoch) && !(e.DropGuard? && Guards(s, e.guard, epoch)))
  {
    var t := Step(s, e);
    if e.Acquire? && s.register.owner.None? {
      assert Guards(t, |s.guards|, epoch);
    } else {
      forall g: nat ensures Guards(t, g, epoch) <==> Guards(s, g, epoch) && !(e.DropGuard? && e.guard == g) {
      }
      if Guarded(s, epoch) && !(e.DropGuard? && Guards(s, e.guard, epoch)) {
        var g: nat :| Guards(s, g, epoch);
        assert Guards(t, g, epoch);
      }
    }
  }

  lemma StepLosesIff(s: System, e: Event, epoch: nat)
    requires GuardsOk(s) && Step(s, e).register.owner == Some(epoch)
    requires s.register.owner == Some(epoch) ==> Attended(s, epoch)
    ensures !Attended(Step(s, e), epoch) <==> Loses(s, e, epoch)
  {
    GuardStep(s, e, epoch);
  }

  /** One step, exactly: an attended owner, or a new one, is unattended afterwards if and only if the step loses it. */
  lemma LosesIff(limit: nat, events: seq<Event>, e: Event, epoch: nat)
    requires Step(Exec(limit, events), e).register.owner == Some(epoch)
    requires Exec(limit, events).register.owner == Some(epoch) ==> Attended(Exec(limit, events), epoch)
    ensures !Attended(Step(Exec(limit, events), e), epoch) <==> Loses(Exec(limit, events), e, epoch)
  {
    GuardsHold(limit, events);
    StepLosesIff(Exec(limit, events), e, epoch);
  }

  lemma StepStaysLost(s: System, e: Event, epoch: nat)
    requires GuardsOk(s) && s.register.owner == Some(epoch) && !Attended(s, epoch) && !e.Die?
    ensures Step(s, e).register.owner == Some(epoch) && !Attended(Step(s, e), epoch)
  {
    GuardStep(s, e, epoch);
    assert (e.RequestRelease? || e.DropGuard?) && IsArmed(s, e.guard) ==> Guards(s, e.guard, s.guards[e.guard].epoch);
  }

  /** An owner left to nobody keeps the store until the process dies: in no continuation can anybody acquire it. */
  lemma {:induction false} LostUntilDeath(limit: nat, before: seq<Event>, after: seq<Event>, epoch: nat)
    requires Exec(limit, before).register.owner == Some(epoch) && !Attended(Exec(limit, before), epoch)
    requires Die !in after
    ensures var s := Exec(limit, before + after);
      s.register.owner == Some(epoch) && !Attended(s, epoch) && !CanAcquire(s.register, s.limit)
    decreases |after|
  {
    if after == [] {
      assert before + after == before;
    } else {
      var init := after[..|after| - 1];
      assert (before + after)[..|before + after| - 1] == before + init;
      LostUntilDeath(limit, before, init, epoch);
      GuardsHold(limit, before + init);
      StepStaysLost(Exec(limit, before + init), after[|after| - 1], epoch);
    }
  }

  // ---- exactly when every owner is attended ----

  predicate Admitted(abandon: bool, refuse: bool, fail: bool, e: Event) {
    (e.AcquireAbandoned? ==> abandon) && (e.DropGuard? && !e.queued ==> refuse) && (e.ServeFails? ==> fail)
  }

  /** The run contains only the kinds of trouble that are switched on. */
  predicate Admits(abandon: bool, refuse: bool, fail: bool, events: seq<Event>) {
    forall e :: e in events ==> Admitted(abandon, refuse, fail, e)
  }

  ghost predicate OwnerAttended(s: System) {
    s.register.owner.Some? ==> Attended(s, s.register.owner.value)
  }

  lemma {:induction false} UntroubledIsAttended(limit: nat, events: seq<Event>)
    requires Admits(false, false, false, events)
    ensures OwnerAttended(Exec(limit, events))
  {
    if events != [] {
      var init, e := events[..|events| - 1], events[|events| - 1];
      assert e in events && forall x :: x in init ==> x in events;
      UntroubledIsAttended(limit, init);
      if Exec(limit, events).register.owner.Some? {
        LosesIff(limit, init, e, Exec(limit, events).register.owner.value);
      }
    }
  }

  lemma ExecAppend(limit: nat, events: seq<Event>, e: Event)
    ensures Exec(limit, events + [e]) == Step(Exec(limit, events), e)
  {
    assert (events + [e])[..|events|] == events;
  }

  /** A start given up while the store acquires leaves an owner that nobody will release. */
  lemma AbandonedLeavesOwner(limit: nat)
    requires limit >= 1
    ensures var s := Exec(limit, [AcquireAbandoned]);
      s.register.owner == Some(1) && !Attended(s, 1)
  {
    ExecAppend(limit, [], AcquireAbandoned);
    assert [] + [AcquireAbandoned] == [AcquireAbandoned];
  }

  lemma AcquiredOnce(limit: nat)
    requires limit >= 1
    ensures Exec(limit, [Acquire]) == System(limit, Register(1, Some(1)), [Guard(1, true)], multiset{}, [Acquires(1)])
  {
    ExecAppend(limit, [], Acquire);
    assert [] + [Acquire] == [Acquire];
  }

  lemma RefusedLeavesOwner(limit: nat)
    requires limit >= 1
    ensures var s := Exec(limit, [Acquire, DropGuard(0, false)]);
      s.register.owner == Some(1) && !Attended(s, 1)
  {
    AcquiredOnce(limit);
    ExecAppend(limit, [Acquire], DropGuard(0, false));
    assert [Acquire] + [DropGuard(0, false)] == [Acquire, DropGuard(0, false)];
  }

  lemma FailedLeavesOwner(limit: nat)
    requires limit >= 1
    ensures var s := Exec(limit, [Acquire, DropGuard(0, true), ServeFails(1)]);
      s.register.owner == Some(1) && !Attended(s, 1)
  {
    AcquiredOnce(limit);
    ExecAppend(limit, [Acquire], DropGuard(0, true));
    assert [Acquire] + [DropGuard(0, true)] == [Acquire, DropGuard(0, true)];
    ExecAppend(limit, [Acquire, DropGuard(0, true)], ServeFails(1));
    assert [Acquire, DropGuard(0, true)] + [ServeFails(1)] == [Acquire, DropGuard(0, true), ServeFails(1)];
  }

  /**
   Every owner is attended in every run exactly if no start is given up while the store
   acquires, the cleanup worker refuses no job and no release fails.
   */
  lemma AttendedIff(limit: nat, abandon: bool, refuse: bool, fail: bool)
    requires limit >= 1
    ensures (forall events :: Admits(abandon, refuse, fail, events) ==> OwnerAttended(Exec(limit, events)))
       <==> !abandon && !refuse && !fail
  {
    if abandon {
      AbandonedLeavesOwner(limit);
      assert Admits(abandon, refuse, fail, [AcquireAbandoned]);
    } else if refuse {
      RefusedLeavesOwner(limit);
      assert Admits(abandon, refuse, fail, [Acquire, DropGuard(0, false)]);
    } else if fail {
      FailedLeavesOwner(limit);
      assert Admits(abandon, refuse, fail, [Acquire, DropGuard(0, true), ServeFails(1)]);
    } else {
      forall events | Admits(abandon, refuse, fail, events) ensures OwnerAttended(Exec(limit, events)) {
        UntroubledIsAttended(limit, events);
      }
    }
  }

  // ---- the register and the guard as objects ----

  /** Ownership state of one store. */
  class OwnerRegister {
    const limit: nat
    var register: Register

    constructor (limit: nat)
      ensures this.limit == limit && register == Register(0, None)
    {
      this.limit := limit;
      register := Register(0, None);
    }

    method AcquireOwner() returns (r: StoreResult<nat>)
      modifies this
      ensures r.Ok? <==> CanAcquire(old(register), limit)
      ensures r.Ok? ==> register == Acquired(old(register)) && r.value == register.last
      ensures r.Err? ==> register == old(register)
                         && r.error == (if register.owner.Some? then OwnerConflict else Failure)
    {
      if register.owner.Some? {
        return Err(OwnerConflict);
      }
      if register.last >= limit {
        return Err(Failure);
      }
      var epoch := register.last + 1;
      register := Register(epoch, Some(epoch));
      r := Ok(epoch);
    }

    method ReleaseOwner(epoch: nat) returns (r: StoreResult<()>)
      modifies this
      ensures register == AfterRelease(old(register), epoch)
      ensures r == if old(register).owner == Some(epoch) then Ok(()) else Err(OwnerConflict)
    {
      if register.owner != Some(epoch) {
        return Err(OwnerConflict);
      }
      register := register.(owner := None);
      r := Ok(());
    }
  }

  /** Holds an acquired epoch until its release has returned. */
  class OwnerReleaseGuard {
    const store: OwnerRegister
    var owner: Option<nat>

    constructor (store: OwnerRegister, epoch: nat)
      ensures this.store == store && owner == Some(epoch)
    {
      this.store, owner := store, Some(epoch);
    }

    /** Disarms only on success; a failed attempt can be retried. */
    method Release() returns (r: StoreResult<()>)
      modifies this, store
      ensures old(owner).None? ==> r == Ok(()) && store.register == old(store.register)
      ensures old(owner).Some? ==>
                && store.register == AfterRelease(old(store.register), old(owner).value)
                && (r.Ok? <==> old(store.register).owner == old(owner))
      ensures owner == if r.Ok? then None else old(owner)
    {
      if owner.None? {
        return Ok(());
      }
      r := store.ReleaseOwner(owner.value);
      if r.Ok? {
        owner := None;
      }
    }

    /** A dropped guard leaves a job exactly if it was armed; serving the job frees its epoch and no other owner. */
    method Drop() returns (job: Option<nat>)
      modifies this
      ensures owner.None? && (job.Some? <==> old(owner).Some?)
      ensures job.Some? ==>
                var served := AfterRelease(store.register, job.value);
                && served.owner != old(owner)
                && (store.register.owner != old(owner) ==> served == store.register)
    {
      job, owner := owner, None;
    }
  }
}
