/** The whole distributed system: the control plane commits, gateways boot, load and
    crash, notifications arrive late, twice or never, and the panel reads statuses. */
module Fleet {
  import opened Schema
  import opened Seqs
  import opened Bundle
  import opened Ledger
  import opened LedgerInvariants
  import opened Loader
  import opened Coherence
  import opened Serving
  import opened Snapshots
  import opened Reloader

  /** What a load read: the state it saw, when, and the entries it returned. */
  datatype Snapshot = Snapshot(from: nat, readAt: int, entries: set<ProxyConfig>)

  datatype Gateway =
    | Down
    | Booting(initial: nat)
    | Up(reloader: Reloader, fetched: Option<Snapshot>, built: Snapshot)

  /** `history` lists the states the control plane went through, the current one last;
      `offered` collects every status a gateway ever tried to publish. */
  datatype Fleet = Fleet(history: seq<Db>, gateways: map<nat, Gateway>, offered: set<Status>)

  datatype FleetStep =
    | Commit(op: Op, first: nat)
    | BeginBoot(g: nat)                 // reads the initial version
    | FinishBoot(g: nat, now: int)      // loads the first registry, or dies
    | Crash(g: nat)
    | Deliver(g: nat, version: nat)     // a notification, or the version a reconcile has read
    | Announce(g: nat)
    | Read(g: nat, now: int)            // the snapshot's query
    | Apply(g: nat)                     // validate and load what was read
    | LoadFails(g: nat)
    | Report(g: nat)
    | Finish(g: nat)
    | ReconcileFails(g: nat)

  /** The parser, and each gateway's environment allowlist: fixed for a run. */
  datatype Setup = Setup(parse: Parser, allow: map<nat, set<string>>)

  function Latest(changes: seq<Change>): (v: nat)
    ensures forall c :: c in changes ==> c.version <= v
    ensures v == 0 || exists c :: c in changes && c.version == v
  {
    if changes == [] then 0
    else
      var before := Latest(changes[..|changes| - 1]);
      var last := changes[|changes| - 1].version;
      assert changes == changes[..|changes| - 1] + [changes[|changes| - 1]];
      if last > before then last else before
  }

  function Current(history: seq<Db>): Db
    requires history != []
  {
    history[|history| - 1]
  }

  function LatestOf(history: seq<Db>): nat
    requires history != []
  {
    Latest(Current(history).changes)
  }

  function AllowOf(s: Setup, g: nat): set<string> {
    if g in s.allow then s.allow[g] else {}
  }

  function GatewayOf(gateways: map<nat, Gateway>, g: nat): Gateway {
    if g in gateways then gateways[g] else Down
  }

  /** Some committed state holds the version; 0 stands for an empty log. */
  ghost predicate IsCommitted(history: seq<Db>, version: nat) {
    version == 0 || exists i :: 0 <= i < |history| && version in Versions(history[i])
  }

  // -------------------------------------------------------------------- invariant

  predicate Increasing(changes: seq<Change>) {
    forall i, j :: 0 <= i < j < |changes| ==> changes[i].version < changes[j].version
  }

  /** The states satisfy the ledger's invariants, each log is a prefix of the current
      one, and a state whose log is all of it routes as the current state does. */
  ghost predicate HistoryInv(s: Setup, history: seq<Db>) {
    && history != []
    && (forall i :: 0 <= i < |history| ==> Inv(s.parse, history[i]) && history[i].changes <= Current(history).changes)
    && (forall i :: 0 <= i < |history| && history[i].changes == Current(history).changes ==>
          SameRouting(history[i], Current(history)))
    && Increasing(Current(history).changes)
  }

  /** State `from` holds every committed change up to `version`. */
  ghost predicate Covers(history: seq<Db>, from: nat, version: nat)
    requires history != []
  {
    && from < |history|
    && forall u :: u in Versions(Current(history)) && u <= version ==> u in Versions(history[from])
  }

  ghost predicate SnapshotInv(allow: set<string>, history: seq<Db>, shot: Snapshot, version: nat)
    requires history != []
  {
    Covers(history, shot.from, version) && shot.entries == View(history[shot.from], shot.readAt, allow)
  }

  ghost predicate GatewayInv(allow: set<string>, history: seq<Db>, gateway: Gateway)
    requires history != []
  {
    match gateway
    case Down => true
    case Booting(initial) => initial <= LatestOf(history)
    case Up(r, fetched, built) =>
      && Sound(r) && r.requested <= LatestOf(history)
      && SnapshotInv(allow, history, built, r.applied)
      && (fetched.Some? ==> r.phase.Fetching? && SnapshotInv(allow, history, fetched.value, r.phase.target))
  }

  /** The version a gateway is bound to have, now or when it next comes up. */
  function Floor(gateway: Gateway, latest: nat): nat {
    match gateway
    case Down => latest
    case Booting(initial) => initial
    case Up(r, _, _) => r.applied
  }

  /** No status claims more than its sender is bound to have. */
  ghost predicate StatusesInv(history: seq<Db>, gateways: map<nat, Gateway>, offered: set<Status>)
    requires history != []
  {
    forall status :: status in offered ==> status.applied <= Floor(GatewayOf(gateways, status.instance), LatestOf(history))
  }

  ghost predicate GatewaysInv(s: Setup, history: seq<Db>, gateways: map<nat, Gateway>)
    requires history != []
  {
    forall g :: g in gateways ==> GatewayInv(AllowOf(s, g), history, gateways[g])
  }

  ghost predicate FleetInv(s: Setup, f: Fleet) {
    && HistoryInv(s, f.history) && GatewaysInv(s, f.history, f.gateways)
    && StatusesInv(f.history, f.gateways, f.offered)
  }

  // ------------------------------------------------------------------------ steps

  /** The gateway is in a position to take the step. */
  ghost predicate IsReadyFor(history: seq<Db>, gateway: Gateway, step: FleetStep) {
    match step
    case Commit(_, _) => false
    case BeginBoot(_) => gateway.Down?
    case FinishBoot(_, _) => gateway.Booting?
    case Crash(_) => true
    case Deliver(_, version) => gateway.Up? && IsCommitted(history, version)
    case Announce(_) => gateway.Up? && gateway.reloader.phase.Announcing?
    case Read(_, _) => gateway.Up? && gateway.reloader.phase.Fetching?
    case Apply(_) => gateway.Up? && gateway.reloader.phase.Fetching? && gateway.fetched.Some? && gateway.fetched.value.from < |history|
    case LoadFails(_) => gateway.Up? && gateway.reloader.phase.Fetching?
    case Report(_) => gateway.Up? && gateway.reloader.phase.Reporting?
    case Finish(_) => gateway.Up? && gateway.reloader.phase.Settling?
    case ReconcileFails(_) => gateway.Up?
  }

  ghost function ReadNow(history: seq<Db>, allow: set<string>, now: int): Snapshot
    requires history != []
  {
    Snapshot(|history| - 1, now, View(Current(history), now, allow))
  }

  /** The gateway after its step. */
  ghost function Moved(s: Setup, history: seq<Db>, gateway: Gateway, step: FleetStep): Gateway
    requires history != [] && IsReadyFor(history, gateway, step)
  {
    var allow := AllowOf(s, step.g);
    match step
    case BeginBoot(_) => Booting(LatestOf(history))
    case FinishBoot(_, now) =>
      if Reloadable(s.parse, Current(history), now, allow) then Up(Start(gateway.initial), None, ReadNow(history, allow, now))
      else Down
    case Crash(_) => Down
    case Deliver(_, version) => gateway.(reloader := Next(gateway.reloader, Requested(version)))
    case Announce(_) => gateway.(reloader := Next(gateway.reloader, Announced), fetched := None)
    case Read(_, now) => gateway.(fetched := Some(ReadNow(history, allow, now)))
    case Apply(_) =>
      var shot := gateway.fetched.value;
      var ok := Reloadable(s.parse, history[shot.from], shot.readAt, allow);
      Up(Next(gateway.reloader, Loaded(ok)), None, if ok then shot else gateway.built)
    case LoadFails(_) => gateway.(reloader := Next(gateway.reloader, Loaded(false)), fetched := None)
    case Report(_) => gateway.(reloader := Next(gateway.reloader, Reported))
    case Finish(_) => gateway.(reloader := Next(gateway.reloader, Finished))
    case ReconcileFails(_) => gateway.(reloader := Next(gateway.reloader, ReconcileFailed))
  }

  /** The statuses a gateway may offer at any moment it is up. */
  function Offers(g: nat, gateway: Gateway): set<Status> {
    if gateway.Up? then {Status(g, gateway.reloader.state, gateway.reloader.applied)} else {}
  }

  ghost predicate IsEnabled(s: Setup, f: Fleet, step: FleetStep) {
    && f.history != []
    && if step.Commit? then IsPermitted(s.parse, Current(f.history), step.op)
       else IsReadyFor(f.history, GatewayOf(f.gateways, step.g), step)
  }

  /** A transaction's versions become visible after all smaller ones. */
  predicate InOrder(f: Fleet, step: FleetStep)
    requires f.history != []
  {
    step.Commit? ==> LatestOf(f.history) < step.first
  }

  ghost function AfterStep(s: Setup, f: Fleet, step: FleetStep): Fleet
    requires IsEnabled(s, f, step)
  {
    if step.Commit? then f.(history := f.history + [Execute(Current(f.history), step.op, step.first).db])
    else
      var moved := Moved(s, f.history, GatewayOf(f.gateways, step.g), step);
      f.(gateways := f.gateways[step.g := moved], offered := f.offered + Offers(step.g, moved))
  }

  // ------------------------------------------------------------ commits keep it

  /** Every transaction appends its versions, in order, at the end of the log. */
  ghost predicate Appends(before: seq<Change>, after: seq<Change>, first: nat) {
    && before <= after
    && forall i :: |before| <= i < |after| ==> after[i].version == first + i - |before|
  }

  lemma DisableAppends(db: Db, w: nat, first: nat)
    requires w < |db.workspaces|
    ensures Appends(db.changes, DisableResources(db, w, first).changes, first)
  {}

  lemma TransactionAppends(db: Db, op: Op, first: nat)
    ensures Appends(db.changes, Execute(db, op, first).db.changes, first)
  {
    match op
    case OpCreateWorkspace(owner, _, _) =>
      var w := OpenWorkspace(db.workspaces, owner);
      if w.Some? { DisableAppends(db, w.value, first); }
    case OpGetWorkspace(owner, _) =>
      var w := OpenWorkspace(db.workspaces, owner);
      if w.Some? { DisableAppends(db, w.value, first); }
    case OpRevokeWorkspace(owner) =>
      var w := OpenWorkspace(db.workspaces, owner);
      if w.Some? { DisableAppends(db, w.value, first); }
    case OpResetWorkspace(owner, _) =>
      var w := OpenWorkspace(db.workspaces, owner);
      if w.Some? { DisableAppends(db, w.value, first); }
    case OpExpireWorkspace(w) =>
      if w < |db.workspaces| { DisableAppends(db, w, first); }
    case _ =>
  }

  lemma AppendingStaysIncreasing(before: seq<Change>, after: seq<Change>, first: nat)
    requires Increasing(before) && Latest(before) < first && Appends(before, after, first)
    ensures Increasing(after)
  {}

  lemma SameRoutingTransitively(a: Db, b: Db, c: Db)
    requires SameRouting(a, b) && SameRouting(b, c)
    ensures SameRouting(a, c)
  {}

  /** A commit leaves the log as it was only if routing is as it was. */
  lemma CommitKeepsRouting(s: Setup, history: seq<Db>, op: Op, first: nat, i: nat)
    requires HistoryInv(s, history) && IsPermitted(s.parse, Current(history), op) && i < |history|
    requires var db := Execute(Current(history), op, first).db;
             Current(history).changes <= db.changes && history[i].changes == db.changes
    ensures SameRouting(history[i], Execute(Current(history), op, first).db)
  {
    assert history[i].changes == Current(history).changes;
    SilentStepsKeepRouting(s.parse, Current(history), op, first);
    SameRoutingTransitively(history[i], Current(history), Execute(Current(history), op, first).db);
  }

  lemma LogsStayPrefixes(history: seq<Db>, db: Db)
    requires history != [] && Current(history).changes <= db.changes
    requires forall i :: 0 <= i < |history| ==> history[i].changes <= Current(history).changes
    ensures forall i :: 0 <= i < |history + [db]| ==> (history + [db])[i].changes <= db.changes
  {}

  lemma CommitKeepsHistory(s: Setup, history: seq<Db>, op: Op, first: nat)
    requires HistoryInv(s, history) && IsPermitted(s.parse, Current(history), op) && LatestOf(history) < first
    ensures HistoryInv(s, history + [Execute(Current(history), op, first).db])
  {
    var db := Execute(Current(history), op, first).db;
    StepKeepsInv(s.parse, Current(history), op, first);
    TransactionAppends(Current(history), op, first);
    AppendingStaysIncreasing(Current(history).changes, db.changes, first);
    LogsStayPrefixes(history, db);
    forall i: nat | i < |history| && history[i].changes == db.changes ensures SameRouting(history[i], db) {
      CommitKeepsRouting(s, history, op, first, i);
    }
    ExtendHistory(s, history, db);
  }

  lemma ExtendHistory(s: Setup, history: seq<Db>, db: Db)
    requires HistoryInv(s, history) && Inv(s.parse, db) && Increasing(db.changes)
    requires forall i :: 0 <= i < |history + [db]| ==> (history + [db])[i].changes <= db.changes
    requires forall i :: 0 <= i < |history| && history[i].changes == db.changes ==> SameRouting(history[i], db)
    ensures HistoryInv(s, history + [db])
  {
    var after := history + [db];
    assert Current(after) == db;
    forall i | 0 <= i < |after| ensures Inv(s.parse, after[i]) && (after[i].changes == db.changes ==> SameRouting(after[i], db)) {
      if i < |history| { assert after[i] == history[i]; }
    }
  }

  lemma VersionsAppended(before: Db, after: Db, first: nat)
    requires Appends(before.changes, after.changes, first)
    ensures Versions(before) <= Versions(after)
    ensures forall u :: u in Versions(after) ==> u in Versions(before) || u >= first
  {}

  lemma LatestGrows(before: seq<Change>, after: seq<Change>)
    requires before <= after
    ensures Latest(before) <= Latest(after)
  {}

  lemma CommitKeepsCovers(history: seq<Db>, db: Db, from: nat, version: nat, first: nat)
    requires history != [] && Covers(history, from, version) && version < first
    requires Appends(Current(history).changes, db.changes, first)
    ensures Covers(history + [db], from, version)
  {}

  lemma CommitKeepsGateway(allow: set<string>, history: seq<Db>, db: Db, first: nat, gateway: Gateway)
    requires history != [] && GatewayInv(allow, history, gateway)
    requires LatestOf(history) < first && Appends(Current(history).changes, db.changes, first)
    ensures GatewayInv(allow, history + [db], gateway)
  {
    LatestGrows(Current(history).changes, db.changes);
    if gateway.Up? {
      CommitKeepsCovers(history, db, gateway.built.from, gateway.reloader.applied, first);
      if gateway.fetched.Some? {
        CommitKeepsCovers(history, db, gateway.fetched.value.from, gateway.reloader.phase.target, first);
      }
    }
  }

  lemma CommitKeepsGateways(s: Setup, history: seq<Db>, db: Db, first: nat, gateways: map<nat, Gateway>)
    requires history != [] && GatewaysInv(s, history, gateways)
    requires LatestOf(history) < first && Appends(Current(history).changes, db.changes, first)
    ensures GatewaysInv(s, history + [db], gateways)
  {
    forall g | g in gateways ensures GatewayInv(AllowOf(s, g), history + [db], gateways[g]) {
      CommitKeepsGateway(AllowOf(s, g), history, db, first, gateways[g]);
    }
  }

  lemma CommitKeepsStatuses(history: seq<Db>, db: Db, gateways: map<nat, Gateway>, offered: set<Status>)
    requires history != [] && StatusesInv(history, gateways, offered) && Current(history).changes <= db.changes
    ensures StatusesInv(history + [db], gateways, offered)
  {}

  // ------------------------------------------------------ gateway steps keep it

  lemma CurrentCovers(history: seq<Db>, version: nat)
    requires history != []
    ensures Covers(history, |history| - 1, version)
  {}

  lemma CommittedIsAtMostLatest(s: Setup, history: seq<Db>, version: nat)
    requires HistoryInv(s, history) && IsCommitted(history, version)
    ensures version <= LatestOf(history)
  {}

  lemma BootingKeepsGateway(s: Setup, history: seq<Db>, gateway: Gateway, step: FleetStep)
    requires history != [] && IsReadyFor(history, gateway, step) && GatewayInv(AllowOf(s, step.g), history, gateway)
    requires step.BeginBoot? || step.FinishBoot? || step.Crash?
    ensures GatewayInv(AllowOf(s, step.g), history, Moved(s, history, gateway, step))
    ensures Floor(gateway, LatestOf(history)) <= Floor(Moved(s, history, gateway, step), LatestOf(history))
  {
    CurrentCovers(history, if step.FinishBoot? then gateway.initial else 0);
  }

  lemma LoadingKeepsGateway(s: Setup, history: seq<Db>, gateway: Gateway, step: FleetStep)
    requires history != [] && IsReadyFor(history, gateway, step) && GatewayInv(AllowOf(s, step.g), history, gateway)
    requires step.Announce? || step.Read? || step.Apply? || step.LoadFails?
    ensures GatewayInv(AllowOf(s, step.g), history, Moved(s, history, gateway, step))
    ensures Floor(gateway, LatestOf(history)) <= Floor(Moved(s, history, gateway, step), LatestOf(history))
  {
    CurrentCovers(history, if step.Read? then gateway.reloader.phase.target else 0);
  }

  lemma SignalKeepsGateway(s: Setup, history: seq<Db>, gateway: Gateway, step: FleetStep)
    requires history != [] && IsReadyFor(history, gateway, step) && GatewayInv(AllowOf(s, step.g), history, gateway)
    requires step.Deliver? || step.Report? || step.Finish? || step.ReconcileFails?
    requires step.Deliver? ==> step.version <= LatestOf(history)
    ensures GatewayInv(AllowOf(s, step.g), history, Moved(s, history, gateway, step))
    ensures Floor(gateway, LatestOf(history)) <= Floor(Moved(s, history, gateway, step), LatestOf(history))
  {}

  /** A gateway's own step keeps what is known of it, and never lowers its floor. */
  lemma MovedKeepsGateway(s: Setup, history: seq<Db>, gateway: Gateway, step: FleetStep)
    requires history != [] && IsReadyFor(history, gateway, step) && GatewayInv(AllowOf(s, step.g), history, gateway)
    requires step.Deliver? ==> step.version <= LatestOf(history)
    ensures GatewayInv(AllowOf(s, step.g), history, Moved(s, history, gateway, step))
    ensures Floor(gateway, LatestOf(history)) <= Floor(Moved(s, history, gateway, step), LatestOf(history))
  {
    if step.BeginBoot? || step.FinishBoot? || step.Crash? {
      BootingKeepsGateway(s, history, gateway, step);
    } else if step.Announce? || step.Read? || step.Apply? || step.LoadFails? {
      LoadingKeepsGateway(s, history, gateway, step);
    } else {
      SignalKeepsGateway(s, history, gateway, step);
    }
  }

  lemma MovedKeepsStatuses(history: seq<Db>, gateways: map<nat, Gateway>, offered: set<Status>, g: nat, moved: Gateway)
    requires history != [] && StatusesInv(history, gateways, offered)
    requires Floor(GatewayOf(gateways, g), LatestOf(history)) <= Floor(moved, LatestOf(history))
    ensures StatusesInv(history, gateways[g := moved], offered + Offers(g, moved))
  {}

  lemma CommitKeepsFleet(s: Setup, f: Fleet, step: FleetStep)
    requires FleetInv(s, f) && IsEnabled(s, f, step) && InOrder(f, step) && step.Commit?
    ensures FleetInv(s, AfterStep(s, f, step))
  {
    var db := Execute(Current(f.history), step.op, step.first).db;
    CommitKeepsHistory(s, f.history, step.op, step.first);
    TransactionAppends(Current(f.history), step.op, step.first);
    CommitKeepsGateways(s, f.history, db, step.first, f.gateways);
    CommitKeepsStatuses(f.history, db, f.gateways, f.offered);
  }

  /** Every step of every participant, commits in order, keeps the whole invariant. */
  lemma StepKeepsFleet(s: Setup, f: Fleet, step: FleetStep)
    requires FleetInv(s, f) && IsEnabled(s, f, step) && InOrder(f, step)
    ensures FleetInv(s, AfterStep(s, f, step))
  {
    if step.Commit? {
      CommitKeepsFleet(s, f, step);
    } else {
      if step.Deliver? { CommittedIsAtMostLatest(s, f.history, step.version); }
      var gateway := GatewayOf(f.gateways, step.g);
      MovedKeepsGateway(s, f.history, gateway, step);
      MovedKeepsStatuses(f.history, f.gateways, f.offered, step.g, Moved(s, f.history, gateway, step));
    }
  }

  // ------------------------------------------------------------------------- runs

  ghost predicate IsRun(s: Setup, f: Fleet, steps: seq<FleetStep>)
    decreases |steps|
  {
    steps != [] ==> IsEnabled(s, f, steps[0]) && IsRun(s, AfterStep(s, f, steps[0]), steps[1..])
  }

  ghost function RunFleet(s: Setup, f: Fleet, steps: seq<FleetStep>): Fleet
    requires IsRun(s, f, steps)
    decreases |steps|
  {
    if steps == [] then f else RunFleet(s, AfterStep(s, f, steps[0]), steps[1..])
  }

  ghost predicate CommitsInOrder(s: Setup, f: Fleet, steps: seq<FleetStep>)
    requires IsRun(s, f, steps)
    decreases |steps|
  {
    steps != [] ==> InOrder(f, steps[0]) && CommitsInOrder(s, AfterStep(s, f, steps[0]), steps[1..])
  }

  lemma FreshFleet(s: Setup, seed: Db)
    requires IsSeed(seed)
    ensures FleetInv(s, Fleet([seed], map[], {}))
  {
    SeedHasInv(s.parse, seed);
  }

  lemma {:induction false} RunKeepsFleet(s: Setup, f: Fleet, steps: seq<FleetStep>)
    requires FleetInv(s, f) && IsRun(s, f, steps) && CommitsInOrder(s, f, steps)
    ensures FleetInv(s, RunFleet(s, f, steps))
    decreases |steps|
  {
    if steps != [] {
      StepKeepsFleet(s, f, steps[0]);
      RunKeepsFleet(s, AfterStep(s, f, steps[0]), steps[1..]);
    }
  }

  // -------------------------------------------------------------- what the panel may conclude

  /** `runtimeHasApplied` on the statuses the panel was given. */
  predicate RuntimeHasApplied(listing: seq<Status>, version: nat) {
    |listing| > 0 && forall i :: 0 <= i < |listing| ==> listing[i].state.Applied? && listing[i].applied >= version
  }

  lemma CoversLess(history: seq<Db>, from: nat, more: nat, less: nat)
    requires history != [] && Covers(history, from, more) && less <= more
    ensures Covers(history, from, less)
  {}

  lemma PartialLogFallsShort(history: seq<Db>, from: nat, version: nat)
    requires history != [] && from < |history| && version >= LatestOf(history)
    requires Increasing(Current(history).changes) && history[from].changes <= Current(history).changes
    requires history[from].changes != Current(history).changes
    ensures !Covers(history, from, version)
  {
    var all, part := Current(history).changes, history[from].changes;
    var next := all[|part|];
    assert next in all && next.version in Versions(Current(history));
    forall c | c in part ensures c.version != next.version {
      var i :| 0 <= i < |part| && part[i] == c;
      assert all[i] == part[i];
    }
  }

  /** A state that holds every version of an increasing log has the whole log. */
  lemma WholeLog(history: seq<Db>, from: nat, version: nat)
    requires history != [] && Covers(history, from, version) && version >= LatestOf(history)
    requires Increasing(Current(history).changes) && history[from].changes <= Current(history).changes
    ensures history[from].changes == Current(history).changes
  {
    if history[from].changes != Current(history).changes {
      PartialLogFallsShort(history, from, version);
    }
  }

  /** What is true of one gateway once every change up to `version` is in its registry;
      if that is the latest version, it routes as the database says. */
  ghost predicate HasApplied(s: Setup, f: Fleet, g: nat, version: nat)
    requires f.history != []
  {
    var gateway := GatewayOf(f.gateways, g);
    gateway.Up? ==>
      && Covers(f.history, gateway.built.from, version)
      && gateway.built.entries == View(f.history[gateway.built.from], gateway.built.readAt, AllowOf(s, g))
      && (version >= LatestOf(f.history) ==>
            Nameless(gateway.built.entries) == Nameless(View(Current(f.history), gateway.built.readAt, AllowOf(s, g))))
  }

  lemma CoveredGatewayHasApplied(s: Setup, f: Fleet, g: nat, version: nat)
    requires FleetInv(s, f) && version <= Floor(GatewayOf(f.gateways, g), LatestOf(f.history))
    ensures HasApplied(s, f, g, version)
  {
    var gateway := GatewayOf(f.gateways, g);
    if gateway.Up? {
      assert GatewayInv(AllowOf(s, g), f.history, gateway);
      CoversLess(f.history, gateway.built.from, gateway.reloader.applied, version);
      if version >= LatestOf(f.history) {
        WholeLog(f.history, gateway.built.from, version);
      }
    }
  }

  /** End-to-end: in every run from the seeded database, with commits in order but with
      every other interleaving, crash, failure, loss and delay allowed, a listing of
      statuses ever offered on which the panel says "applied" is true of every gateway
      listed, however old the statuses are. */
  lemma PanelIsRight(s: Setup, seed: Db, steps: seq<FleetStep>, listing: seq<Status>, version: nat)
    requires IsSeed(seed)
    requires var f := Fleet([seed], map[], {}); IsRun(s, f, steps) && CommitsInOrder(s, f, steps)
    requires forall status :: status in listing ==> status in RunFleet(s, Fleet([seed], map[], {}), steps).offered
    requires RuntimeHasApplied(listing, version)
    ensures var f := RunFleet(s, Fleet([seed], map[], {}), steps);
            f.history != [] && forall status :: status in listing ==> HasApplied(s, f, status.instance, version)
  {
    FreshFleet(s, seed);
    RunKeepsFleet(s, Fleet([seed], map[], {}), steps);
    var f := RunFleet(s, Fleet([seed], map[], {}), steps);
    forall status | status in listing ensures HasApplied(s, f, status.instance, version) {
      assert status in f.offered;
      CoveredGatewayHasApplied(s, f, status.instance, version);
    }
  }

  // ----------------------------------------------------- convergence and its limits

  /** Nothing goes wrong for gateway g in this step. */
  ghost predicate IsSmooth(s: Setup, f: Fleet, step: FleetStep, g: nat)
    requires IsEnabled(s, f, step)
  {
    !step.Commit? && step.g == g ==>
      && !step.Crash? && !step.LoadFails?
      && (step.Apply? ==>
            var shot := f.gateways[g].fetched.value;
            Reloadable(s.parse, f.history[shot.from], shot.readAt, AllowOf(s, g)))
  }

  ghost predicate RunIsSmooth(s: Setup, f: Fleet, steps: seq<FleetStep>, g: nat)
    requires IsRun(s, f, steps)
    decreases |steps|
  {
    steps != [] ==> IsSmooth(s, f, steps[0], g) && RunIsSmooth(s, AfterStep(s, f, steps[0]), steps[1..], g)
  }

  /** The gateway is up and the version is applied or on its way. */
  predicate Awaits(gateway: Gateway, version: nat) {
    gateway.Up? && Sound(gateway.reloader) && IsPending(gateway.reloader, version)
  }

  lemma StillAwaits(s: Setup, f: Fleet, step: FleetStep, g: nat, version: nat)
    requires IsEnabled(s, f, step) && IsSmooth(s, f, step, g) && Awaits(GatewayOf(f.gateways, g), version)
    ensures Awaits(GatewayOf(AfterStep(s, f, step).gateways, g), version)
  {
    if !step.Commit? && step.g == g {
      assert GatewayOf(AfterStep(s, f, step).gateways, g) == Moved(s, f.history, GatewayOf(f.gateways, g), step);
    }
  }

  lemma {:induction false} AwaitsThroughout(s: Setup, f: Fleet, steps: seq<FleetStep>, g: nat, version: nat)
    requires IsRun(s, f, steps) && RunIsSmooth(s, f, steps, g) && Awaits(GatewayOf(f.gateways, g), version)
    ensures Awaits(GatewayOf(RunFleet(s, f, steps).gateways, g), version)
    decreases |steps|
  {
    if steps != [] {
      StillAwaits(s, f, steps[0], g, version);
      AwaitsThroughout(s, AfterStep(s, f, steps[0]), steps[1..], g, version);
    }
  }

  /** A gateway told of a version awaits it, unless the news arrives between a drain's
      return and its `finally`. */
  lemma ToldAwaitsIff(s: Setup, f: Fleet, g: nat, version: nat)
    requires f.history != [] && GatewayOf(f.gateways, g).Up? && IsCommitted(f.history, version)
    requires Sound(GatewayOf(f.gateways, g).reloader)
    ensures var r := GatewayOf(f.gateways, g).reloader;
            Awaits(GatewayOf(AfterStep(s, f, Deliver(g, version)).gateways, g), version)
            <==> !r.phase.Settling? || version <= r.applied
  {
    var gateway := GatewayOf(f.gateways, g);
    assert Moved(s, f.history, gateway, Deliver(g, version)) == gateway.(reloader := Next(gateway.reloader, Requested(version)));
  }

  /** Convergence: whatever else happens, commits included, as long as the gateway
      itself stays up and its loads succeed, it has applied every version it awaits
      whenever it is not in the middle of a reload. */
  lemma AwaitingGatewaysConverge(s: Setup, f: Fleet, steps: seq<FleetStep>, g: nat, version: nat)
    requires FleetInv(s, f) && IsRun(s, f, steps) && CommitsInOrder(s, f, steps) && RunIsSmooth(s, f, steps, g)
    requires Awaits(GatewayOf(f.gateways, g), version)
    ensures var after := RunFleet(s, f, steps);
            && after.history != [] && GatewayOf(after.gateways, g).Up?
            && (!IsDraining(GatewayOf(after.gateways, g).reloader) ==> HasApplied(s, after, g, version))
  {
    var after := RunFleet(s, f, steps);
    RunKeepsFleet(s, f, steps);
    AwaitsThroughout(s, f, steps, g, version);
    if !IsDraining(GatewayOf(after.gateways, g).reloader) {
      CoveredGatewayHasApplied(s, after, g, version);
    }
  }

  /** A commit that is not in order: with versions of its own, as the table's primary
      key demands, it leaves a state covering `version` exactly when it adds nothing
      or only newer versions. */
  lemma CommitKeepsCoverageIff(history: seq<Db>, from: nat, version: nat, op: Op, first: nat)
    requires history != [] && Covers(history, from, version) && Versions(history[from]) <= Versions(Current(history))
    requires var db := Execute(Current(history), op, first).db;
             forall i :: |Current(history).changes| <= i < |db.changes| ==> db.changes[i].version !in Versions(Current(history))
    ensures var db := Execute(Current(history), op, first).db;
            Covers(history + [db], from, version) <==> |db.changes| == |Current(history).changes| || first > version
  {
    var before := Current(history);
    var db := Execute(before, op, first).db;
    TransactionAppends(before, op, first);
    VersionsAppended(before, db, first);
    assert (history + [db])[from] == history[from] && Current(history + [db]) == db;
    if |db.changes| == |before.changes| {
      assert db.changes == before.changes;
    } else {
      assert db.changes[|before.changes|].version == first && first in Versions(db);
    }
  }

  /** No committed state has a version above the bound. */
  ghost predicate AtMost(history: seq<Db>, bound: nat) {
    forall i, u :: 0 <= i < |history| && u in Versions(history[i]) ==> u <= bound
  }

  /** A gateway at rest that has applied everything it can be told of. */
  predicate IsAtRest(gateway: Gateway, bound: nat) {
    gateway.Up? && gateway.reloader.phase.Idle? && gateway.reloader.applied == bound
  }

  predicate IsSameButForState(a: Gateway, b: Gateway) {
    && a.Up? && b.Up? && b.built == a.built && b.reloader.applied == a.reloader.applied && b.reloader.phase == a.reloader.phase
    && (a.reloader.state.Error? ==> b.reloader.state.Error?)
  }

  lemma RestingStep(s: Setup, f: Fleet, step: FleetStep, g: nat, bound: nat)
    requires IsEnabled(s, f, step) && AtMost(f.history, bound) && IsAtRest(GatewayOf(f.gateways, g), bound)
    requires step != Crash(g)
    ensures IsSameButForState(GatewayOf(f.gateways, g), GatewayOf(AfterStep(s, f, step).gateways, g))
  {}

  lemma {:induction false} HistoryOnlyGrows(s: Setup, f: Fleet, steps: seq<FleetStep>)
    requires IsRun(s, f, steps)
    ensures f.history <= RunFleet(s, f, steps).history
    decreases |steps|
  {
    if steps != [] {
      HistoryOnlyGrows(s, AfterStep(s, f, steps[0]), steps[1..]);
    }
  }

  /** The other side: a gateway at rest is moved by newer versions only. Whatever else
      happens, commits of older versions included, it keeps its registry, and if its
      last reconcile failed it reports an error for as long as nothing newer is committed. */
  lemma {:induction false} OnlyNewerVersionsReload(s: Setup, f: Fleet, steps: seq<FleetStep>, g: nat, bound: nat)
    requires IsRun(s, f, steps) && AtMost(RunFleet(s, f, steps).history, bound)
    requires IsAtRest(GatewayOf(f.gateways, g), bound) && Crash(g) !in steps
    ensures IsSameButForState(GatewayOf(f.gateways, g), GatewayOf(RunFleet(s, f, steps).gateways, g))
    decreases |steps|
  {
    if steps != [] {
      HistoryOnlyGrows(s, f, steps);
      assert steps[0] in steps && Crash(g) !in steps[1..];
      RestingStep(s, f, steps[0], g, bound);
      OnlyNewerVersionsReload(s, AfterStep(s, f, steps[0]), steps[1..], g, bound);
    }
  }
}
