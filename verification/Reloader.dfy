/** `GatewayConfigReloader`: single-flight, coalescing, failure-tolerant reloads,
    split into the steps between its awaits. */
module Reloader {
  import opened Schema

  datatype SyncState = Loading | Applied | Error

  /** Where the drain loop is suspended, with the version it is loading. */
  datatype Phase =
    | Idle
    | Announcing(target: nat)
    | Fetching(target: nat)
    | Reporting
    | Settling

  datatype Reloader = Reloader(applied: nat, requested: nat, state: SyncState, failed: bool, phase: Phase)

  datatype Status = Status(instance: nat, state: SyncState, applied: nat)

  function Start(initial: nat): Reloader {
    Reloader(initial, initial, Applied, false, Idle)
  }

  /** The head of the drain loop, up to its first await or its exit. */
  function Drain(r: Reloader): Reloader {
    if r.requested > r.applied then r.(state := Loading, failed := false, phase := Announcing(r.requested))
    else r.(phase := Settling)
  }

  datatype Event =
    | Requested(version: nat)   // requestReload is called
    | Announced                 // the "loading" report has been sent
    | Loaded(ok: bool)          // loadSnapshot has settled; applying it went well or not
    | Reported                  // the report of the outcome has been sent
    | Finished                  // the `finally` of the drain has run
    | ReconcileFailed           // reading the latest version threw

  predicate IsReady(r: Reloader, e: Event) {
    match e
    case Requested(_) => true
    case Announced => r.phase.Announcing?
    case Loaded(_) => r.phase.Fetching?
    case Reported => r.phase.Reporting?
    case Finished => r.phase.Settling?
    case ReconcileFailed => true
  }

  function Next(r: Reloader, e: Event): Reloader
    requires IsReady(r, e)
  {
    match e
    case Requested(version) =>
      if version <= r.applied then r
      else
        var raised := r.(requested := if version > r.requested then version else r.requested);
        if r.phase.Idle? then Drain(raised) else raised
    case Announced => r.(phase := Fetching(r.phase.target))
    case Loaded(true) => r.(applied := r.phase.target, state := Applied, phase := Reporting)
    case Loaded(false) => r.(requested := r.applied, state := Error, failed := true, phase := Reporting)
    case Reported => Drain(r)
    case Finished => r.(phase := Idle)
    case ReconcileFailed => r.(state := Error, failed := true)
  }

  predicate IsSchedule(r: Reloader, events: seq<Event>)
    decreases |events|
  {
    events != [] ==> IsReady(r, events[0]) && IsSchedule(Next(r, events[0]), events[1..])
  }

  function After(r: Reloader, events: seq<Event>): Reloader
    requires IsSchedule(r, events)
    decreases |events|
  {
    if events == [] then r else After(Next(r, events[0]), events[1..])
  }

  /** What holds at every await: nothing is applied that was not asked for, and a load
      in progress is for something newer than what is applied. */
  predicate Sound(r: Reloader) {
    && r.applied <= r.requested
    && (r.phase.Announcing? || r.phase.Fetching? ==> r.applied < r.phase.target <= r.requested)
  }

  predicate IsDraining(r: Reloader) {
    r.phase.Announcing? || r.phase.Fetching? || r.phase.Reporting?
  }

  /** A version the reloader holds already, or is asked for in the schedule. */
  predicate IsKnown(r: Reloader, events: seq<Event>, version: nat) {
    || version == r.applied || version == r.requested || Requested(version) in events
    || ((r.phase.Announcing? || r.phase.Fetching?) && version == r.phase.target)
  }

  /** Over every schedule: soundness is kept, the applied version never goes down, and
      every version it takes is one that was asked for. */
  lemma {:induction false} SchedulesAreSafe(r: Reloader, events: seq<Event>)
    requires Sound(r) && IsSchedule(r, events)
    ensures Sound(After(r, events))
    ensures r.applied <= After(r, events).applied
    ensures IsKnown(r, events, After(r, events).applied) && IsKnown(r, events, After(r, events).requested)
    decreases |events|
  {
    if events != [] {
      SchedulesAreSafe(Next(r, events[0]), events[1..]);
      assert forall e :: e in events[1..] ==> e in events;
    }
  }

  /** How many steps of its own a drain can still take. */
  function StepsLeft(r: Reloader): nat {
    match r.phase
    case Idle => 0
    case Settling => 1
    case Reporting => if r.requested > r.applied then 5 else 2
    case Fetching(target) => if r.requested > target then 6 else 3
    case Announcing(target) => if r.requested > target then 7 else 4
  }

  /** A drain that is left alone ends, after two loads at most: the one in progress and one
      for everything asked for meanwhile. */
  lemma {:induction false} DrainsEnd(r: Reloader, events: seq<Event>)
    requires Sound(r) && IsSchedule(r, events) && forall e :: e in events ==> !e.Requested? && !e.ReconcileFailed?
    ensures |events| + StepsLeft(After(r, events)) <= StepsLeft(r) <= 7
    ensures StepsLeft(After(r, events)) == 0 <==> After(r, events).phase.Idle?
    decreases |events|
  {
    if events != [] {
      assert events[0] in events && forall e :: e in events[1..] ==> e in events;
      DrainsEnd(Next(r, events[0]), events[1..]);
    }
  }

  predicate NoLoadFails(events: seq<Event>) {
    Loaded(false) !in events
  }

  /** Once asked for, a version stays pending until it is applied, unless a load fails. */
  predicate IsPending(r: Reloader, version: nat) {
    version <= r.applied || (IsDraining(r) && version <= r.requested)
  }

  lemma {:induction false} PendingUntilApplied(r: Reloader, events: seq<Event>, version: nat)
    requires Sound(r) && IsSchedule(r, events) && NoLoadFails(events) && IsPending(r, version)
    ensures IsPending(After(r, events), version)
    decreases |events|
  {
    if events != [] {
      assert events[0] in events && forall e :: e in events[1..] ==> e in events;
      PendingUntilApplied(Next(r, events[0]), events[1..], version);
    }
  }

  /** When no load fails, a request is honoured by the time the drain has returned,
      in every schedule, exactly when it is not made between the drain's return and
      its `finally`; a request made there is kept but nothing starts loading it. */
  lemma RequestIsHonouredIff(r: Reloader, version: nat, events: seq<Event>)
    requires Sound(r) && version > r.applied
    requires var asked := Next(r, Requested(version));
             IsSchedule(asked, events) && NoLoadFails(events) && !IsDraining(After(asked, events))
    requires forall e :: e in events ==> !e.Requested?
    ensures After(Next(r, Requested(version)), events).applied >= version <==> !r.phase.Settling?
  {
    var asked := Next(r, Requested(version));
    if r.phase.Settling? {
      NothingStarts(asked, events);
    } else {
      PendingUntilApplied(asked, events, version);
    }
  }

  /** Outside a drain, only a request can start anything. */
  lemma {:induction false} NothingStarts(r: Reloader, events: seq<Event>)
    requires !IsDraining(r) && IsSchedule(r, events) && forall e :: e in events ==> !e.Requested?
    ensures After(r, events).applied == r.applied && After(r, events).requested == r.requested
    ensures !IsDraining(After(r, events))
    decreases |events|
  {
    if events != [] {
      assert events[0] in events && forall e :: e in events[1..] ==> e in events;
      NothingStarts(Next(r, events[0]), events[1..]);
    }
  }

  /** A failed load forgets every request made while it ran, however many and however new. */
  lemma {:induction false} FailureDropsRequests(r: Reloader, requests: seq<Event>)
    requires Sound(r) && r.phase.Fetching? && (forall e :: e in requests ==> e.Requested?) && IsSchedule(r, requests)
    ensures After(r, requests).phase == r.phase
    ensures Next(Next(After(r, requests), Loaded(false)), Reported) == Reloader(r.applied, r.applied, Error, true, Settling)
    decreases |requests|
  {
    if requests != [] {
      assert requests[0] in requests && forall e :: e in requests[1..] ==> e in requests;
      FailureDropsRequests(Next(r, requests[0]), requests[1..]);
    }
  }

  /** An idle reloader that has applied all it is told about never moves again: not
      its versions, not its phase, and an error state is not cleared either. */
  lemma {:induction false} OldNewsChangesNothing(r: Reloader, events: seq<Event>)
    requires r.phase.Idle? && IsSchedule(r, events)
    requires forall e :: e in events && e.Requested? ==> e.version <= r.applied
    ensures var after := After(r, events);
            && after.(state := r.state, failed := r.failed) == r
            && (r.state.Error? ==> after.state.Error?)
            && (ReconcileFailed !in events ==> after == r)
    decreases |events|
  {
    if events != [] {
      assert events[0] in events && forall e :: e in events[1..] ==> e in events;
      OldNewsChangesNothing(Next(r, events[0]), events[1..]);
    }
  }

  /** The class, its continuation kept in `phase`. */
  class GatewayConfigReloader {
    const instance: nat
    var appliedVersion: nat
    var requestedVersion: nat
    var activeReload: bool
    var state: SyncState
    var lastError: bool
    var phase: Phase
    var offered: seq<Status>

    function Model(): Reloader
      reads this
    {
      Reloader(appliedVersion, requestedVersion, state, lastError, phase)
    }

    predicate Valid()
      reads this
    {
      Sound(Model()) && (activeReload <==> !phase.Idle?)
    }

    constructor (instance: nat, initialVersion: nat)
      ensures Valid() && Model() == Start(initialVersion) && offered == [] && this.instance == instance
    {
      this.instance := instance;
      appliedVersion, requestedVersion, activeReload := initialVersion, initialVersion, false;
      state, lastError, phase, offered := Applied, false, Idle, [];
    }

    function CurrentStatus(): Status
      reads this
    {
      Status(instance, state, appliedVersion)
    }

    /** `reportStatus`: the status as it is at the call; a failing publisher is ignored. */
    method ReportStatus()
      modifies `offered
      ensures offered == old(offered) + [CurrentStatus()]
    {
      offered := offered + [CurrentStatus()];
    }

    method RequestReload(version: nat)
      requires Valid()
      modifies this
      ensures Valid() && Model() == Next(old(Model()), Requested(version))
      ensures old(offered) <= offered && forall s :: s in offered[|old(offered)|..] ==> s == CurrentStatus()
    {
      if version <= appliedVersion {
        ReportStatus();
        return;
      }
      requestedVersion := if version > requestedVersion then version else requestedVersion;
      if !activeReload {
        activeReload := true;
        DrainHead();
      }
    }

    /** The loop test of `drainReloads` and the body up to its first await. */
    method DrainHead()
      requires activeReload && appliedVersion <= requestedVersion
      modifies this
      ensures Valid() && Model() == Drain(old(Model())) && activeReload
      ensures old(offered) <= offered && forall s :: s in offered[|old(offered)|..] ==> s == CurrentStatus()
    {
      if requestedVersion > appliedVersion {
        phase := Announcing(requestedVersion);
        state := Loading;
        lastError := false;
        ReportStatus();
      } else {
        phase := Settling;
      }
    }

    method ResumeAnnounced()
      requires Valid() && phase.Announcing?
      modifies this
      ensures Valid() && Model() == Next(old(Model()), Announced) && offered == old(offered)
    {
      phase := Fetching(phase.target);
    }

    /** The try block's outcome: `ok` says that loading and applying went well. */
    method ResumeLoaded(ok: bool)
      requires Valid() && phase.Fetching?
      modifies this
      ensures Valid() && Model() == Next(old(Model()), Loaded(ok))
      ensures offered == old(offered) + [CurrentStatus()]
    {
      if ok {
        appliedVersion := phase.target;
        state := Applied;
      } else {
        requestedVersion := appliedVersion;
        state := Error;
        lastError := true;
      }
      phase := Reporting;
      ReportStatus();
    }

    method ResumeReported()
      requires Valid() && phase.Reporting?
      modifies this
      ensures Valid() && Model() == Next(old(Model()), Reported)
      ensures old(offered) <= offered && forall s :: s in offered[|old(offered)|..] ==> s == CurrentStatus()
    {
      DrainHead();
    }

    method Finally()
      requires Valid() && phase.Settling?
      modifies this
      ensures Valid() && Model() == Next(old(Model()), Finished) && offered == old(offered)
    {
      phase := Idle;
      activeReload := false;
    }

    method ReconcileFails()
      requires Valid()
      modifies this
      ensures Valid() && Model() == Next(old(Model()), ReconcileFailed)
      ensures offered == old(offered) + [CurrentStatus()]
    {
      state := Error;
      lastError := true;
      ReportStatus();
    }

    /** `reconcile` from quiescence, with nothing else arriving and every load going
        well: one pass of the loop reaches the latest version. An error that was there stays
        exactly if there was nothing new to load. */
    method Reconcile(latest: nat)
      requires Valid() && phase.Idle? && latest >= requestedVersion
      modifies this
      ensures Valid() && phase.Idle? && appliedVersion == requestedVersion == latest
      ensures state.Applied? <==> old(appliedVersion) < latest || old(state).Applied?
      ensures offered != [] && offered[|offered| - 1] == CurrentStatus()
    {
      RequestReload(latest);
      while activeReload
        invariant Valid()
        invariant activeReload ==> IsDraining(Model()) || phase.Settling?
        invariant requestedVersion == latest
        invariant phase.Announcing? || phase.Fetching? ==> phase.target == latest
        invariant appliedVersion == latest || phase.Announcing? || phase.Fetching?
        invariant old(appliedVersion) < latest && appliedVersion == latest ==> state.Applied?
        invariant latest <= old(appliedVersion) ==> !activeReload && state == old(state)
        decreases if phase.Idle? then 0 else if phase.Settling? then 1 else if phase.Reporting? then 2 else if phase.Fetching? then 3 else 4
      {
        match phase
        case Announcing(_) => ResumeAnnounced();
        case Fetching(_) => ResumeLoaded(true);
        case Reporting => ResumeReported();
        case Settling => Finally();
      }
      if latest <= appliedVersion {
        ReportStatus();
      }
    }
  }
}
