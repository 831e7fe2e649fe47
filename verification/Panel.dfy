/** When the panel says "applied": the other direction of `Fleet.PanelIsRight`. */
module Panel {
  import opened Schema
  import opened Seqs
  import opened Ledger
  import opened Loader
  import opened Snapshots
  import opened Reloader
  import opened Fleet

  function CleanAfter(step: FleetStep, g: nat, clean: bool): bool {
    if step == Apply(g) then true else if step == ReconcileFails(g) then false else clean
  }

  /** After these steps the last thing gateway g went through, of loads that took effect and
      reconciles that failed, is a load; without either it is what it was before. */
  predicate EndsClean(steps: seq<FleetStep>, g: nat, clean: bool) {
    if steps == [] then clean else EndsClean(steps[1..], g, CleanAfter(steps[0], g, clean))
  }

  /** Outside a load the state is what the last of those two made it. */
  predicate Tracks(gateway: Gateway, clean: bool) {
    && gateway.Up?
    && (gateway.reloader.phase.Announcing? || gateway.reloader.phase.Fetching? || (gateway.reloader.state.Applied? <==> clean))
  }

  lemma StillTracks(s: Setup, f: Fleet, step: FleetStep, g: nat, clean: bool)
    requires IsEnabled(s, f, step) && IsSmooth(s, f, step, g) && Tracks(GatewayOf(f.gateways, g), clean)
    ensures Tracks(GatewayOf(AfterStep(s, f, step).gateways, g), CleanAfter(step, g, clean))
  {
    if !step.Commit? && step.g == g {
      assert GatewayOf(AfterStep(s, f, step).gateways, g) == Moved(s, f.history, GatewayOf(f.gateways, g), step);
    }
  }

  lemma {:induction false} TracksThroughout(s: Setup, f: Fleet, steps: seq<FleetStep>, g: nat, clean: bool)
    requires IsRun(s, f, steps) && RunIsSmooth(s, f, steps, g) && Tracks(GatewayOf(f.gateways, g), clean)
    ensures Tracks(GatewayOf(RunFleet(s, f, steps).gateways, g), EndsClean(steps, g, clean))
    decreases |steps|
  {
    if steps != [] {
      StillTracks(s, f, steps[0], g, clean);
      TracksThroughout(s, AfterStep(s, f, steps[0]), steps[1..], g, CleanAfter(steps[0], g, clean));
    }
  }

  predicate IsApplied(gateway: Gateway) {
    gateway.Up? && gateway.reloader.state.Applied?
  }

  /** Gateway g awaits the version, stays up with loads that succeed, and comes to rest. */
  ghost predicate SettlesFor(s: Setup, f: Fleet, steps: seq<FleetStep>, g: nat, version: nat)
    requires IsRun(s, f, steps)
  {
    && Awaits(GatewayOf(f.gateways, g), version) && RunIsSmooth(s, f, steps, g)
    && GatewayOf(RunFleet(s, f, steps).gateways, g).Up?
    && GatewayOf(RunFleet(s, f, steps).gateways, g).reloader.phase.Idle?
  }

  /** A boot counts as well: the gateway comes up with the version it read, applied, exactly
      when the database it finds can be loaded, and otherwise it is down again. */
  lemma BootedIsAppliedIff(s: Setup, f: Fleet, g: nat, now: int, version: nat)
    requires IsEnabled(s, f, FinishBoot(g, now)) && version <= GatewayOf(f.gateways, g).initial
    ensures var after := GatewayOf(AfterStep(s, f, FinishBoot(g, now)).gateways, g);
            && (Awaits(after, version) && IsApplied(after) <==> Reloadable(s.parse, Current(f.history), now, AllowOf(s, g)))
            && (after.Up? || after.Down?)
            && (after.Up? ==> after.built.entries == View(Current(f.history), now, AllowOf(s, g)))
  {
    assert GatewayOf(AfterStep(s, f, FinishBoot(g, now)).gateways, g)
        == Moved(s, f.history, GatewayOf(f.gateways, g), FinishBoot(g, now));
  }

  // ----------------------------------------------------------------- how news goes live

  lemma TakesStep(s: Setup, f: Fleet, step: FleetStep, g: nat)
    requires IsEnabled(s, f, step) && !step.Commit? && step.g == g
    ensures var after := AfterStep(s, f, step);
            && after.history == f.history
            && GatewayOf(after.gateways, g) == Moved(s, f.history, GatewayOf(f.gateways, g), step)
            && (forall h :: h != g ==> GatewayOf(after.gateways, h) == GatewayOf(f.gateways, h))
            && f.offered <= after.offered && Offers(g, GatewayOf(after.gateways, g)) <= after.offered
  {}

  lemma {:induction false} RunsInTurn(s: Setup, f: Fleet, steps: seq<FleetStep>, more: seq<FleetStep>)
    requires IsRun(s, f, steps) && IsRun(s, RunFleet(s, f, steps), more)
    ensures IsRun(s, f, steps + more) && RunFleet(s, f, steps + more) == RunFleet(s, RunFleet(s, f, steps), more)
    decreases |steps|
  {
    if steps == [] {
      EmptyFront(more);
    } else {
      HeadFirst(steps, more);
      assert (steps + more)[1..] == steps[1..] + more;
      RunsInTurn(s, AfterStep(s, f, steps[0]), steps[1..], more);
    }
  }

  lemma StepThenRun(s: Setup, f: Fleet, step: FleetStep, rest: seq<FleetStep>)
    requires IsEnabled(s, f, step) && IsRun(s, AfterStep(s, f, step), rest)
    ensures IsRun(s, f, [step] + rest) && RunFleet(s, f, [step] + rest) == RunFleet(s, AfterStep(s, f, step), rest)
  {
    assert ([step] + rest)[1..] == rest;
  }

  lemma RunOfThree(s: Setup, f: Fleet, a: FleetStep, b: FleetStep, c: FleetStep)
    requires IsEnabled(s, f, a) && IsEnabled(s, AfterStep(s, f, a), b) && IsEnabled(s, AfterStep(s, AfterStep(s, f, a), b), c)
    ensures IsRun(s, f, [a, b, c]) && RunFleet(s, f, [a, b, c]) == AfterStep(s, AfterStep(s, AfterStep(s, f, a), b), c)
  {
    var f1 := AfterStep(s, f, a);
    var f2 := AfterStep(s, f1, b);
    assert [c] + [] == [c] && [b] + [c] == [b, c] && [a] + [b, c] == [a, b, c];
    StepThenRun(s, f2, c, []);
    StepThenRun(s, f1, b, [c]);
    StepThenRun(s, f, a, [b, c]);
  }

  /** Its news makes a gateway at rest read the database. */
  lemma NewsIsRead(s: Setup, f: Fleet, g: nat, version: nat, now: int)
    requires f.history != [] && IsCommitted(f.history, version)
    requires var gateway := GatewayOf(f.gateways, g);
             gateway.Up? && gateway.reloader.phase.Idle? && gateway.reloader.applied < version
    ensures IsRun(s, f, [Deliver(g, version), Announce(g), Read(g, now)])
    ensures var after := RunFleet(s, f, [Deliver(g, version), Announce(g), Read(g, now)]);
            var gateway := GatewayOf(after.gateways, g);
            && after.history == f.history && gateway.Up? && gateway.reloader.phase == Fetching(gateway.reloader.requested)
            && gateway.reloader.requested >= version && gateway.fetched == Some(ReadNow(f.history, AllowOf(s, g), now))
  {
    var told := AfterStep(s, f, Deliver(g, version));
    TakesStep(s, f, Deliver(g, version), g);
    var announced := AfterStep(s, told, Announce(g));
    TakesStep(s, told, Announce(g), g);
    TakesStep(s, announced, Read(g, now), g);
    RunOfThree(s, f, Deliver(g, version), Announce(g), Read(g, now));
  }

  /** What it has read takes effect if it can be loaded, and it comes to rest. */
  lemma ReadIsApplied(s: Setup, f: Fleet, g: nat)
    requires var gateway := GatewayOf(f.gateways, g);
             && gateway.Up? && gateway.reloader.phase == Fetching(gateway.reloader.requested) && gateway.fetched.Some?
             && gateway.fetched.value.from < |f.history|
             && Reloadable(s.parse, f.history[gateway.fetched.value.from], gateway.fetched.value.readAt, AllowOf(s, g))
    ensures IsRun(s, f, [Apply(g), Report(g), Finish(g)])
    ensures var before, after := GatewayOf(f.gateways, g), RunFleet(s, f, [Apply(g), Report(g), Finish(g)]);
            var gateway := GatewayOf(after.gateways, g);
            && gateway.Up? && gateway.reloader.phase.Idle? && gateway.built == before.fetched.value
            && gateway.reloader.applied == before.reloader.requested
            && Status(g, Applied, gateway.reloader.applied) in Offers(g, gateway) && Offers(g, gateway) <= after.offered
  {
    var applied := AfterStep(s, f, Apply(g));
    TakesStep(s, f, Apply(g), g);
    var reported := AfterStep(s, applied, Report(g));
    TakesStep(s, applied, Report(g), g);
    TakesStep(s, reported, Finish(g), g);
    RunOfThree(s, f, Apply(g), Report(g), Finish(g));
  }

  /** Steps of gateway g alone, from the news of a version to the end of the drain. */
  function Drained(g: nat, version: nat, now: int): seq<FleetStep> {
    [Deliver(g, version), Announce(g), Read(g, now)] + [Apply(g), Report(g), Finish(g)]
  }

  /** A gateway at rest that is told of a newer version, and finds a database that can be
      loaded, goes through a drain at the end of which it is at rest again, has what the
      database held when it read, and offers a status on which the panel says "applied". */
  lemma NewsGoesLive(s: Setup, f: Fleet, g: nat, version: nat, now: int)
    requires f.history != [] && exists c :: c in Current(f.history).changes && c.version == version
    requires var gateway := GatewayOf(f.gateways, g);
             gateway.Up? && gateway.reloader.phase.Idle? && gateway.reloader.applied < version
    requires Reloadable(s.parse, Current(f.history), now, AllowOf(s, g))
    ensures IsRun(s, f, Drained(g, version, now))
    ensures var after := RunFleet(s, f, Drained(g, version, now));
            var gateway := GatewayOf(after.gateways, g);
            && gateway.Up? && gateway.reloader.phase.Idle?
            && gateway.built.entries == View(Current(f.history), now, AllowOf(s, g))
            && exists status :: status in Offers(g, gateway) && status in after.offered && RuntimeHasApplied([status], version)
  {
    var first, second := [Deliver(g, version), Announce(g), Read(g, now)], [Apply(g), Report(g), Finish(g)];
    assert version in Versions(f.history[|f.history| - 1]);
    NewsIsRead(s, f, g, version, now);
    var read := RunFleet(s, f, first);
    ReadIsApplied(s, read, g);
    RunsInTurn(s, f, first, second);
    var gateway := GatewayOf(RunFleet(s, read, second).gateways, g);
    assert RuntimeHasApplied([Status(g, Applied, gateway.reloader.applied)], version);
  }

  predicate NoneIsOf(steps: seq<FleetStep>, g: nat) {
    forall step :: step in steps ==> step.Commit? || step.g != g
  }

  lemma {:induction false} OthersLeaveGateway(s: Setup, f: Fleet, steps: seq<FleetStep>, g: nat)
    requires f.history != [] && IsRun(s, f, steps) && NoneIsOf(steps, g)
    ensures var after := RunFleet(s, f, steps); after.history != [] && GatewayOf(after.gateways, g) == GatewayOf(f.gateways, g)
    decreases |steps|
  {
    if steps != [] {
      assert steps[0] in steps;
      OthersLeaveGateway(s, AfterStep(s, f, steps[0]), steps[1..], g);
    }
  }

  /** A gateway may crash at any time, and is then down. */
  lemma CrashedIsDown(s: Setup, f: Fleet, g: nat)
    requires f.history != []
    ensures IsEnabled(s, f, Crash(g))
    ensures var crashed := AfterStep(s, f, Crash(g)); crashed.history == f.history && GatewayOf(crashed.gateways, g).Down?
  {}

  /** A boot, after a crash or not, whatever is committed and whatever other gateways do before
      it is over, ends with the latest version from when it began, and with what the database
      holds at its end. */
  lemma BootGoesLive(s: Setup, f: Fleet, g: nat, between: seq<FleetStep>, now: int)
    requires f.history != [] && GatewayOf(f.gateways, g).Down?
    requires var begun := AfterStep(s, f, BeginBoot(g));
             && IsRun(s, begun, between) && NoneIsOf(between, g)
             && var found := RunFleet(s, begun, between);
                found.history != [] && Reloadable(s.parse, Current(found.history), now, AllowOf(s, g))
    ensures var found := RunFleet(s, AfterStep(s, f, BeginBoot(g)), between);
            && IsEnabled(s, found, FinishBoot(g, now))
            && var gateway := GatewayOf(AfterStep(s, found, FinishBoot(g, now)).gateways, g);
            && Status(g, Applied, LatestOf(f.history)) in Offers(g, gateway)
            && gateway.built.entries == View(Current(found.history), now, AllowOf(s, g))
  {
    TakesStep(s, f, BeginBoot(g), g);
    OthersLeaveGateway(s, AfterStep(s, f, BeginBoot(g)), between, g);
    var found := RunFleet(s, AfterStep(s, f, BeginBoot(g)), between);
    BootedIsAppliedIff(s, found, g, now, LatestOf(f.history));
    TakesStep(s, found, FinishBoot(g, now), g);
  }

  lemma SettledHasApplied(s: Setup, f: Fleet, steps: seq<FleetStep>, g: nat, version: nat)
    requires IsRun(s, f, steps) && SettlesFor(s, f, steps, g, version)
    ensures var r := GatewayOf(RunFleet(s, f, steps).gateways, g).reloader;
            version <= r.applied && (r.state.Applied? <==> EndsClean(steps, g, IsApplied(GatewayOf(f.gateways, g))))
  {
    AwaitsThroughout(s, f, steps, g, version);
    TracksThroughout(s, f, steps, g, IsApplied(GatewayOf(f.gateways, g)));
  }

  /** Over every run, whatever the control plane and the other gateways do: once gateways that
      await a version have come to rest, the panel that lists them says that this version and
      every smaller one is applied, exactly when there are any and none of them has had a
      reconcile fail since its last load. */
  lemma PanelSaysSoIff(
    s: Setup, f: Fleet, steps: seq<FleetStep>, gs: seq<nat>, listing: seq<Status>, version: nat, asked: nat)
    requires IsRun(s, f, steps) && asked <= version && |listing| == |gs|
    requires forall i :: 0 <= i < |gs| ==> SettlesFor(s, f, steps, gs[i], version)
    requires forall i :: 0 <= i < |gs| ==> listing[i] in Offers(gs[i], GatewayOf(RunFleet(s, f, steps).gateways, gs[i]))
    ensures RuntimeHasApplied(listing, asked)
       <==> gs != [] && forall i :: 0 <= i < |gs| ==> EndsClean(steps, gs[i], IsApplied(GatewayOf(f.gateways, gs[i])))
  {
    forall i | 0 <= i < |gs|
      ensures listing[i].applied >= asked
      ensures listing[i].state.Applied? <==> EndsClean(steps, gs[i], IsApplied(GatewayOf(f.gateways, gs[i])))
    {
      SettledHasApplied(s, f, steps, gs[i], version);
    }
  }

  // ------------------------------------------------------------ what gateways ever serve

  ghost predicate IsRead(history: seq<Db>, allow: set<string>, shot: Snapshot) {
    shot.from < |history| && shot.entries == View(history[shot.from], shot.readAt, allow)
  }

  /** The registry was built from something that had been read and could be loaded. */
  ghost predicate ServesLoadable(s: Setup, history: seq<Db>, g: nat, gateway: Gateway) {
    gateway.Up? ==>
      && IsRead(history, AllowOf(s, g), gateway.built)
      && Reloadable(s.parse, history[gateway.built.from], gateway.built.readAt, AllowOf(s, g))
      && (gateway.fetched.Some? ==> IsRead(history, AllowOf(s, g), gateway.fetched.value))
  }

  lemma MovedServesLoadable(s: Setup, history: seq<Db>, gateway: Gateway, step: FleetStep)
    requires history != [] && IsReadyFor(history, gateway, step) && ServesLoadable(s, history, step.g, gateway)
    ensures ServesLoadable(s, history, step.g, Moved(s, history, gateway, step))
  {}

  lemma StepServesLoadable(s: Setup, f: Fleet, step: FleetStep, g: nat)
    requires IsEnabled(s, f, step) && ServesLoadable(s, f.history, g, GatewayOf(f.gateways, g))
    ensures var after := AfterStep(s, f, step);
            after.history != [] && ServesLoadable(s, after.history, g, GatewayOf(after.gateways, g))
  {
    if step.Commit? {
      var after := AfterStep(s, f, step);
      assert forall i :: 0 <= i < |f.history| ==> after.history[i] == f.history[i];
    } else if step.g == g {
      TakesStep(s, f, step, g);
      MovedServesLoadable(s, f.history, GatewayOf(f.gateways, g), step);
    }
  }

  lemma {:induction false} RunServesLoadable(s: Setup, f: Fleet, steps: seq<FleetStep>, g: nat)
    requires f.history != [] && IsRun(s, f, steps) && ServesLoadable(s, f.history, g, GatewayOf(f.gateways, g))
    ensures var after := RunFleet(s, f, steps); ServesLoadable(s, after.history, g, GatewayOf(after.gateways, g))
    decreases |steps|
  {
    if steps != [] {
      StepServesLoadable(s, f, steps[0], g);
      RunServesLoadable(s, AfterStep(s, f, steps[0]), steps[1..], g);
    }
  }

  /** Whatever loads fail, and in whatever order versions become visible: over every run what
      a gateway serves is the view of one committed state, one that can be loaded. */
  lemma GatewaysServeLoadableStates(s: Setup, seed: Db, steps: seq<FleetStep>, g: nat)
    requires IsRun(s, Fleet([seed], map[], {}), steps)
    ensures var f := RunFleet(s, Fleet([seed], map[], {}), steps);
            var gateway := GatewayOf(f.gateways, g);
            gateway.Up? ==>
              exists i, now :: 0 <= i < |f.history| && Reloadable(s.parse, f.history[i], now, AllowOf(s, g))
                && gateway.built.entries == View(f.history[i], now, AllowOf(s, g))
  {
    RunServesLoadable(s, Fleet([seed], map[], {}), steps, g);
  }
}
