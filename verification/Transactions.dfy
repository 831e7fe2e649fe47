/** What each transaction is for: when it succeeds, what it changes and what it leaves alone,
    said without the reads and writes it is made of. */
module Transactions {
  import opened Schema
  import opened Seqs
  import opened Bundle
  import opened Ledger
  import opened LedgerInvariants

  // ----------------------------------------------------------- system-managed proxies

  /** The transactions the public API offers: without the flag for system-managed proxies,
      and not the workspace operations. */
  predicate IsPublic(op: Op) {
    match op
    case OpImportRevision(_, _, allowSystemManaged) => !allowSystemManaged
    case OpDeploy(input, _) => !input.allowSystemManaged
    case OpRetire(_, allowSystemManaged) => !allowSystemManaged
    case OpCreateOrganization(_) => true
    case OpCreateProxy(_, _, _, _) => true
    case OpUpdateProxy(_, _, _) => true
    case _ => false
  }

  /** The proxy and its rows are as they were, and it has no new ones. */
  ghost predicate IsSpared(before: Db, after: Db, proxy: string) {
    && proxy in before.proxies && proxy in after.proxies && after.proxies[proxy] == before.proxies[proxy]
    && |before.rows| <= |after.rows|
    && (forall k :: 0 <= k < |before.rows| && before.rows[k].proxy == proxy ==> after.rows[k] == before.rows[k])
    && (forall k :: 0 <= k < |after.rows| && after.rows[k].proxy == proxy ==>
          k < |before.rows| && before.rows[k].proxy == proxy)
  }

  lemma StepSparesSystemProxies(db: Db, op: Op, first: nat, proxy: string)
    requires IsPublic(op) && proxy in db.proxies && db.proxies[proxy].systemManaged
    ensures IsSpared(db, Execute(db, op, first).db, proxy)
  {}

  /** Whatever is asked for through the public API, in any number and order, a system-managed
      proxy keeps its name, its activity, its revisions and its deployments. */
  lemma {:induction false} SystemProxiesAreSpared(db: Db, steps: seq<Step>, proxy: string)
    requires proxy in db.proxies && db.proxies[proxy].systemManaged
    requires forall i :: 0 <= i < |steps| ==> IsPublic(steps[i].op)
    ensures IsSpared(db, Run(db, steps), proxy)
    decreases |steps|
  {
    if steps != [] {
      var front, last := steps[..|steps| - 1], steps[|steps| - 1];
      SystemProxiesAreSpared(db, front, proxy);
      StepSparesSystemProxies(Run(db, front), last.op, last.first, proxy);
    }
  }

  function Unmanaged(db: Db, proxy: string): Db
    requires proxy in db.proxies
  {
    db.(proxies := db.proxies[proxy := db.proxies[proxy].(systemManaged := false)])
  }

  /** With the flag a system-managed proxy is deployed like any other. */
  lemma FlagLiftsTheGuard(db: Db, i: DeployInput, now: int)
    requires i.proxy in db.proxies
    ensures PlanDeploy(db, i.(allowSystemManaged := true), now)
         == PlanDeploy(Unmanaged(db, i.proxy), i.(allowSystemManaged := false), now)
  {
    var other, public := Unmanaged(db, i.proxy), i.(allowSystemManaged := false);
    if HasRevision(db.proxies, i.proxy, i.revision) {
      var basePath := RevisionOf(db.proxies, i.proxy, i.revision).basePath;
      assert forall row :: BasePathOf(other.proxies, row) == BasePathOf(db.proxies, row);
      assert HasConflict(db, i, basePath) <==> HasConflict(other, public, basePath);
    }
  }

  // ----------------------------------------------------------------------- deploying

  /** The upstream as it is kept. */
  function KeptUpstream(i: DeployInput): Option<string> {
    if i.upstream.Some? then Some(WithoutTrailingSlashes(i.upstream.value.text)) else None
  }

  /** The rows a deploy would leave: the active row of its slot retired, and one more. */
  function RowsWith(db: Db, i: DeployInput): seq<Deployment> {
    seq(|db.rows|, k requires 0 <= k < |db.rows| =>
      if IsSlot(db.rows[k], i.proxy, i.environment, i.workspace) then db.rows[k].(status := Retired) else db.rows[k])
    + [Deployment(i.proxy, i.revision, i.environment, i.workspace, KeptUpstream(i), Active)]
  }

  /** The rules for rows. */
  ghost predicate RowsAreLawful(db: Db, rows: seq<Deployment>) {
    && Rooted(rows, db.proxies, db.environments, db.workspaces)
    && SlotsAreUnique(rows) && PathsAreUnique(rows, db.proxies)
    && LabRowsAreOpen(rows, db.workspaces) && Promoted(rows, db.environments)
  }

  /** What a deploy asks for besides the rules for rows. */
  predicate IsInvited(db: Db, i: DeployInput, now: int) {
    && (i.upstream.Some? ==> i.upstream.value.valid)
    && (i.proxy in db.proxies && db.proxies[i.proxy].systemManaged ==> i.allowSystemManaged)
    && (i.workspace.Some? && i.workspace.value < |db.workspaces| ==> db.workspaces[i.workspace.value].expiresAt > now)
  }

  lemma ReplacedRows(db: Db, i: DeployInput, now: int)
    requires SlotsAreUnique(db.rows) && PlanDeploy(db, i, now).Ok?
    ensures var plan := PlanDeploy(db, i, now).value; Kept(db, plan) + [NewRow(i, plan)] == RowsWith(db, i)
  {
    var plan := PlanDeploy(db, i, now).value;
    forall k | 0 <= k < |db.rows| ensures Kept(db, plan)[k] == RowsWith(db, i)[k] {
      if IsSlot(db.rows[k], i.proxy, i.environment, i.workspace) {
        assert plan.previous == Some(k);
      }
    }
  }

  lemma LawfulRowIsRooted(db: Db, i: DeployInput)
    requires RowsAreLawful(db, RowsWith(db, i))
    ensures RowIsRooted(RowsWith(db, i)[|db.rows|], db.proxies, db.environments, db.workspaces)
    ensures i.workspace.Some? ==> db.workspaces[i.workspace.value].status.Open?
  {}

  lemma LawfulRowIsPromoted(db: Db, i: DeployInput)
    requires RowsAreLawful(db, RowsWith(db, i)) && i.workspace.None? && i.environment in db.environments
    requires PreviousStage(db.environments[i.environment].stage).Some?
    ensures var e := db.environments[i.environment]; HasPromotion(db, i, PreviousStage(e.stage).value, e.region)
  {
    var rows, e := RowsWith(db, i), db.environments[i.environment];
    assert IsPromoted(rows, db.environments, |db.rows|);
    var j :| 0 <= j < |db.rows| && IsPromotion(db.environments, rows[j], i.proxy, i.revision, PreviousStage(e.stage).value, e.region);
    assert IsPromotion(db.environments, db.rows[j], i.proxy, i.revision, PreviousStage(e.stage).value, e.region);
  }

  lemma LawfulRowIsFree(db: Db, i: DeployInput)
    requires RowsAreLawful(db, RowsWith(db, i)) && HasRevision(db.proxies, i.proxy, i.revision)
    ensures !HasConflict(db, i, RevisionOf(db.proxies, i.proxy, i.revision).basePath) && !BreaksUniqueIndex(db, i)
  {
    var rows := RowsWith(db, i);
    forall k | 0 <= k < |db.rows| && db.rows[k].status.Active? && !IsSlot(db.rows[k], i.proxy, i.environment, i.workspace)
      && rows[k].environment == i.environment
      ensures rows[k] == db.rows[k] && rows[k].proxy != i.proxy
      ensures rows[k].workspace == i.workspace ==> BasePathOf(db.proxies, rows[k]) != BasePathOf(db.proxies, rows[|db.rows|])
    {
      assert rows[k].status.Active? && rows[|db.rows|].status.Active?;
    }
  }

  lemma PlannedIsLawful(parse: Parser, db: Db, i: DeployInput, now: int)
    requires Inv(parse, db) && PlanDeploy(db, i, now).Ok?
    ensures IsInvited(db, i, now) && RowsAreLawful(db, RowsWith(db, i))
  {
    DeployKeepsInv(parse, db, i, now, 0);
    ReplacedRows(db, i, now);
    assert Deploy(db, i, now, 0).db.rows == RowsWith(db, i);
  }

  lemma LawfulIsPlanned(db: Db, i: DeployInput, now: int)
    requires IsInvited(db, i, now) && RowsAreLawful(db, RowsWith(db, i))
    ensures PlanDeploy(db, i, now).Ok?
  {
    LawfulRowIsRooted(db, i);
    LawfulRowIsFree(db, i);
    if i.workspace.None? && PreviousStage(db.environments[i.environment].stage).Some? {
      LawfulRowIsPromoted(db, i);
    }
  }

  /** A deploy succeeds exactly when the rows it would leave obey the rules, its upstream is
      a URL, its workspace is not overdue and a system-managed proxy comes with the flag;
      then it leaves those rows. */
  lemma DeploySucceedsIff(parse: Parser, db: Db, i: DeployInput, now: int, version: nat)
    requires Inv(parse, db)
    ensures var outcome := Deploy(db, i, now, version);
            && (outcome.reply.Ok? <==> IsInvited(db, i, now) && RowsAreLawful(db, RowsWith(db, i)))
            && (outcome.reply.Ok? ==>
                  && outcome.reply.value == Deployed(|db.rows|, version)
                  && outcome.db == db.(rows := RowsWith(db, i), changes := outcome.db.changes, audit := outcome.db.audit))
            && (outcome.reply.Err? ==> outcome.db == db)
  {
    if PlanDeploy(db, i, now).Ok? {
      PlannedIsLawful(parse, db, i, now);
      ReplacedRows(db, i, now);
    } else if IsInvited(db, i, now) && RowsAreLawful(db, RowsWith(db, i)) {
      LawfulIsPlanned(db, i, now);
    }
  }

  /** Why a deploy is refused: each error says what it means. */
  lemma RefusalIsExplained(db: Db, i: DeployInput, now: int, version: nat)
    requires Deploy(db, i, now, version).reply.Err?
    ensures match Deploy(db, i, now, version).reply.error
            case ProxyNotFound => i.proxy !in db.proxies
            case SystemProxyImmutable => i.proxy in db.proxies && db.proxies[i.proxy].systemManaged && !i.allowSystemManaged
            case RevisionNotFound => i.proxy in db.proxies && !HasRevision(db.proxies, i.proxy, i.revision)
            case EnvironmentNotFound => i.environment !in db.environments
            case LabWorkspaceInvalid =>
              i.workspace.Some? &&
              (i.workspace.value < |db.workspaces| && i.proxy in db.proxies && i.environment in db.environments ==>
                 var w := db.workspaces[i.workspace.value];
                 w.org != db.proxies[i.proxy].org || !w.status.Open? || w.expiresAt <= now
                 || !db.environments[i.environment].stage.Qual?)
            case UpstreamRequired =>
              || (i.upstream.Some? && (!i.upstream.value.valid || WithoutTrailingSlashes(i.upstream.value.text) == ""))
              || (i.upstream.None? && HasRevision(db.proxies, i.proxy, i.revision)
                  && exists op :: op in RevisionOf(db.proxies, i.proxy, i.revision).operations && op.mode.Forward?)
            case PromotionRequired =>
              && i.workspace.None? && i.environment in db.environments
              && var e := db.environments[i.environment];
              && !e.stage.Qual?
              && forall k :: 0 <= k < |db.rows| ==>
                   !IsPromotion(db.environments, db.rows[k], i.proxy, i.revision, if e.stage.Prod? then Pprod else Qual, e.region)
            case DeploymentConflict =>
              exists k :: 0 <= k < |db.rows| && db.rows[k].status.Active? && db.rows[k].environment == i.environment
                && db.rows[k].workspace == i.workspace && db.rows[k].proxy != i.proxy
                && HasRevision(db.proxies, i.proxy, i.revision)
                && BasePathOf(db.proxies, db.rows[k]) == Some(RevisionOf(db.proxies, i.proxy, i.revision).basePath)
            case UniqueViolation =>
              exists k :: 0 <= k < |db.rows| && db.rows[k].status.Active? && db.rows[k].environment == i.environment
                && db.rows[k].workspace != i.workspace && db.rows[k].proxy == i.proxy
            case _ => false
  {
    if i.environment in db.environments && PlanDeploy(db, i, now) == Err(PromotionRequired) {
      var e := db.environments[i.environment];
      assert !HasPromotion(db, i, PreviousStage(e.stage).value, e.region);
      forall k | 0 <= k < |db.rows|
        ensures !IsPromotion(db.environments, db.rows[k], i.proxy, i.revision, PreviousStage(e.stage).value, e.region) {}
    }
  }

  /** What is recorded of it: a creation where nothing was active, a rollback where the
      revision that was active is newer, a replacement otherwise. */
  lemma DeployIsRecorded(db: Db, i: DeployInput, now: int, version: nat)
    requires SlotsAreUnique(db.rows) && Deploy(db, i, now, version).reply.Ok?
    ensures var after := Deploy(db, i, now, version).db;
            && |after.changes| == |db.changes| + 1 && db.changes <= after.changes
            && var change := after.changes[|db.changes|];
            && change.version == version
            && (change.kind.DeploymentCreated? <==>
                  forall k :: 0 <= k < |db.rows| ==> !IsSlot(db.rows[k], i.proxy, i.environment, i.workspace))
            && (change.kind.DeploymentRolledBack? <==>
                  exists k :: 0 <= k < |db.rows| && IsSlot(db.rows[k], i.proxy, i.environment, i.workspace)
                    && db.rows[k].revision > i.revision)
            && (change.kind.DeploymentReplaced? <==>
                  exists k :: 0 <= k < |db.rows| && IsSlot(db.rows[k], i.proxy, i.environment, i.workspace)
                    && db.rows[k].revision <= i.revision)
  {
    var previous := FindActive(db.rows, i.proxy, i.environment, i.workspace);
    forall k | 0 <= k < |db.rows| && IsSlot(db.rows[k], i.proxy, i.environment, i.workspace) ensures previous == Some(k) {}
  }

  /** An upstream is needed exactly for revisions that forward. */
  lemma UpstreamIsNeededIff(operations: seq<Operation>, upstream: Option<string>)
    ensures UpstreamSuffices(operations, upstream)
       <==> (upstream.Some? && upstream.value != "") || forall i :: 0 <= i < |operations| ==> operations[i].mode.Local?
  {
    forall op | op in operations ensures exists i :: 0 <= i < |operations| && operations[i] == op {}
  }

  // ------------------------------------------------------------------------ retiring

  /** Retiring succeeds exactly for an active row, that of a system-managed proxy with the
      flag only, and takes exactly this row out of what is active. */
  lemma RetireSucceedsIff(parse: Parser, db: Db, id: nat, allowSystemManaged: bool, version: nat)
    requires Inv(parse, db)
    ensures var outcome := Retire(db, id, allowSystemManaged, version);
            && (outcome.reply.Ok? <==>
                  id in ActiveIds(db.rows) && (db.proxies[db.rows[id].proxy].systemManaged ==> allowSystemManaged))
            && (outcome.reply.Ok? ==>
                  && ActiveIds(outcome.db.rows) == ActiveIds(db.rows) - {id}
                  && RowsEvolve(db.rows, outcome.db.rows) && |outcome.db.rows| == |db.rows|
                  && outcome.db.changes == db.changes + [Change(version, DeploymentRetired)]
                  && outcome.db == db.(rows := outcome.db.rows, changes := outcome.db.changes, audit := outcome.db.audit))
            && (outcome.reply.Err? ==> outcome.db == db)
  {
    if id < |db.rows| {
      assert RowIsRooted(db.rows[id], db.proxies, db.environments, db.workspaces);
    }
  }

  lemma ActiveWith(db: Db, i: DeployInput)
    ensures ActiveIds(RowsWith(db, i)) - {|db.rows|}
         == set k | k in ActiveIds(db.rows) && !IsSlot(db.rows[k], i.proxy, i.environment, i.workspace)
    ensures |db.rows| in ActiveIds(RowsWith(db, i)) && RowsWith(db, i)[|db.rows|].proxy == i.proxy
  {}

  /** Retiring what was just deployed leaves active what was active before, without the row
      that was replaced. */
  lemma RetireAfterDeploy(parse: Parser, db: Db, i: DeployInput, now: int, version: nat, next: nat)
    requires Inv(parse, db) && Deploy(db, i, now, version).reply.Ok?
    ensures var deployed := Deploy(db, i, now, version).db;
            var outcome := Retire(deployed, |db.rows|, i.allowSystemManaged, next);
            && outcome.reply.Ok?
            && ActiveIds(outcome.db.rows)
               == set k | k in ActiveIds(db.rows) && !IsSlot(db.rows[k], i.proxy, i.environment, i.workspace)
  {
    var deployed := Deploy(db, i, now, version).db;
    DeploySucceedsIff(parse, db, i, now, version);
    DeployKeepsInv(parse, db, i, now, version);
    RetireSucceedsIff(parse, deployed, |db.rows|, i.allowSystemManaged, next);
    ActiveWith(db, i);
  }

  // ----------------------------------------------------------- proxies and revisions

  predicate IsName(name: string) {
    0 < |name| <= 120
  }

  /** Renaming and switching: both exactly as asked, everything else of the proxy and every
      other proxy as before. */
  lemma UpdateSucceedsIff(db: Db, proxy: string, name: Option<string>, active: Option<bool>, version: nat)
    ensures var outcome := UpdateProxy(db, proxy, name, active, version);
            && (outcome.reply.Ok? <==>
                  proxy in db.proxies && !db.proxies[proxy].systemManaged && (name.Some? ==> IsName(name.value)))
            && (outcome.reply.Ok? ==>
                  && outcome.db.proxies.Keys == db.proxies.Keys
                  && (forall p :: p in db.proxies && p != proxy ==> outcome.db.proxies[p] == db.proxies[p])
                  && var before, after := db.proxies[proxy], outcome.db.proxies[proxy];
                  && (name.Some? ==> after.name == name.value) && (name.None? ==> after.name == before.name)
                  && (active.Some? ==> after.active == active.value) && (active.None? ==> after.active == before.active)
                  && after.org == before.org && after.revisions == before.revisions && !after.systemManaged
                  && (outcome.db.changes == db.changes <==> after.active == before.active)
                  && outcome.db == db.(proxies := outcome.db.proxies, changes := outcome.db.changes, audit := outcome.db.audit))
            && (outcome.reply.Err? ==> outcome.db == db)
  {}

  /** Switching a proxy off and on again restores it, and records two changes. */
  lemma SwitchingBackRestores(db: Db, proxy: string, version: nat, next: nat)
    requires proxy in db.proxies && !db.proxies[proxy].systemManaged && db.proxies[proxy].active
    ensures var off := UpdateProxy(db, proxy, None, Some(false), version).db;
            var on := UpdateProxy(off, proxy, None, Some(true), next).db;
            && !off.proxies[proxy].active && on.proxies == db.proxies
            && on.changes == db.changes + [Change(version, ProxyDeactivated), Change(next, ProxyActivated)]
  {
    var off := UpdateProxy(db, proxy, None, Some(false), version).db;
    assert off.changes == db.changes + [Change(version, ProxyDeactivated)];
    assert UpdateProxy(off, proxy, None, Some(true), next).db.proxies[proxy] == db.proxies[proxy];
  }

  /** An organization is made under an id that is free, and nothing else changes. */
  lemma CreateOrganizationSucceedsIff(db: Db, org: string)
    ensures var outcome := CreateOrganization(db, org);
            && (outcome.reply.Ok? <==> org !in db.orgs)
            && (outcome.reply.Ok? ==> outcome.db.orgs.Keys == db.orgs.Keys + {org} && outcome.db.orgs[org].StandardOrg?)
            && (forall o :: o in db.orgs ==> o in outcome.db.orgs && outcome.db.orgs[o] == db.orgs[o])
            && outcome.db == db.(orgs := outcome.db.orgs, audit := outcome.db.audit)
  {}

  /** A new proxy is active, without revisions, in an organization that exists. */
  lemma CreateProxySucceedsIff(db: Db, id: string, name: string, org: string, systemManaged: bool)
    ensures var outcome := CreateProxy(db, id, name, org, systemManaged);
            && (outcome.reply.Ok? <==> IsName(name) && org in db.orgs && id !in db.proxies)
            && (outcome.reply.Ok? ==>
                  && outcome.db.proxies.Keys == db.proxies.Keys + {id}
                  && (forall p :: p in db.proxies ==> outcome.db.proxies[p] == db.proxies[p])
                  && outcome.db.proxies[id] == Proxy(name, true, systemManaged, org, [])
                  && outcome.db == db.(proxies := outcome.db.proxies, audit := outcome.db.audit))
            && (outcome.reply.Err? ==> outcome.db == db)
  {}

  /** An imported revision is behind all others of its proxy, under the next number, with the
      bundle's base path and operations; no other revision of any proxy changes. */
  lemma ImportSucceedsIff(db: Db, proxy: string, bundle: CompiledBundle, allowSystemManaged: bool)
    ensures var outcome := ImportRevision(db, proxy, bundle, allowSystemManaged);
            && (outcome.reply.Ok? <==> proxy in db.proxies && (db.proxies[proxy].systemManaged ==> allowSystemManaged))
            && (outcome.reply.Ok? ==>
                  && var next := |db.proxies[proxy].revisions| + 1;
                  && HasRevision(outcome.db.proxies, proxy, next) && !HasRevision(outcome.db.proxies, proxy, next + 1)
                  && RevisionOf(outcome.db.proxies, proxy, next) == Revision(bundle.basePath, bundle.operations)
                  && (forall p, n :: HasRevision(db.proxies, p, n) ==>
                        HasRevision(outcome.db.proxies, p, n) && RevisionOf(outcome.db.proxies, p, n) == RevisionOf(db.proxies, p, n))
                  && outcome.db.proxies.Keys == db.proxies.Keys
                  && (forall p :: p in db.proxies && p != proxy ==> outcome.db.proxies[p] == db.proxies[p])
                  && outcome.db.proxies[proxy].(revisions := db.proxies[proxy].revisions) == db.proxies[proxy]
                  && outcome.db == db.(proxies := outcome.db.proxies, audit := outcome.db.audit))
            && (outcome.reply.Err? ==> outcome.db == db)
  {}

  // ---------------------------------------------------------------------- workspaces

  predicate RowsAreRetired(before: seq<Deployment>, after: seq<Deployment>, w: nat) {
    && |after| == |before|
    && forall k :: 0 <= k < |before| ==>
         after[k] == if before[k].workspace == Some(w) then before[k].(status := Retired) else before[k]
  }

  predicate ProxiesAreOff(before: map<string, Proxy>, after: map<string, Proxy>, org: string) {
    && after.Keys == before.Keys
    && forall p :: p in before ==> after[p] == if before[p].org == org then before[p].(active := false) else before[p]
  }

  /** The workspace's rows are retired, its organization's proxies are off, a change is
      recorded for each row that was active; nothing else of rows, proxies or organizations
      is touched. */
  predicate IsEmptied(before: Db, after: Db, w: nat)
    requires w < |before.workspaces|
  {
    && RowsAreRetired(before.rows, after.rows, w)
    && ProxiesAreOff(before.proxies, after.proxies, before.workspaces[w].org)
    && before.changes <= after.changes
    && |after.changes| == |before.changes| + |ActiveIds(before.rows) - ActiveIds(after.rows)|
    && after.orgs == before.orgs && after.environments == before.environments
  }

  function ActiveSet(rows: seq<Deployment>, w: nat): set<nat> {
    set k: nat | k < |rows| && IsActiveIn(rows[k], w)
  }

  lemma OneMoreRow(rows: seq<Deployment>, w: nat)
    requires rows != []
    ensures var n := |rows| - 1;
            ActiveSet(rows, w) == ActiveSet(rows[..n], w) + (if IsActiveIn(rows[n], w) then {n} else {})
            && n !in ActiveSet(rows[..n], w)
  {}

  lemma {:induction false} ActiveInCounts(rows: seq<Deployment>, w: nat)
    ensures |ActiveIn(rows, w)| == |ActiveSet(rows, w)|
  {
    if rows == [] {
      assert ActiveSet(rows, w) == {};
    } else {
      ActiveInCounts(rows[..|rows| - 1], w);
      OneMoreRow(rows, w);
    }
  }

  lemma RetiredAreTheActive(rows: seq<Deployment>, w: nat)
    ensures RowsAreRetired(rows, RetireAllIn(rows, w), w)
    ensures ActiveIds(rows) - ActiveIds(RetireAllIn(rows, w)) == ActiveSet(rows, w)
  {}

  lemma ProxiesAreSwitchedOff(proxies: map<string, Proxy>, org: string)
    ensures ProxiesAreOff(proxies, DeactivateProxies(proxies, org), org)
  {}

  lemma AppendingIsLonger<T>(s: seq<T>, t: seq<T>)
    ensures s <= s + t
  {}

  lemma DisableEmpties(db: Db, w: nat, first: nat)
    requires w < |db.workspaces|
    ensures IsEmptied(db, DisableResources(db, w, first), w)
    ensures DisableResources(db, w, first).workspaces == db.workspaces
  {
    var retired := ActiveIn(db.rows, w);
    ActiveInCounts(db.rows, w);
    RetiredAreTheActive(db.rows, w);
    ProxiesAreSwitchedOff(db.proxies, db.workspaces[w].org);
    AppendingIsLonger(db.changes, RemovalChanges(|retired|, first));
  }

  /** The workspace is emptied and closed, and no other workspace changes. */
  predicate IsClosed(before: Db, after: Db, w: nat, status: WorkspaceStatus)
    requires w < |before.workspaces|
  {
    && IsEmptied(before, after, w)
    && |after.workspaces| == |before.workspaces|
    && after.workspaces[w] == before.workspaces[w].(status := status)
    && forall v :: 0 <= v < |before.workspaces| && v != w ==> after.workspaces[v] == before.workspaces[v]
  }

  lemma DeactivateCloses(db: Db, w: nat, status: WorkspaceStatus, first: nat)
    requires w < |db.workspaces|
    ensures IsClosed(db, Deactivate(db, w, status, first), w, status)
  {
    DisableEmpties(db, w, first);
  }

  lemma OnlyOneIsOpen(parse: Parser, db: Db, owner: Principal, w: nat)
    requires Inv(parse, db) && w < |db.workspaces| && Owns(db.workspaces[w], owner)
    ensures OpenWorkspace(db.workspaces, owner) == Some(w)
  {}

  /** Revoking, resetting and looking up work on the owner's one open workspace. Revoking
      closes it and resetting empties it, overdue ones excepted; looking up expires exactly
      an overdue one. */
  lemma OwnerActsOnTheOpenOne(parse: Parser, db: Db, owner: Principal, w: nat, now: int, first: nat)
    requires Inv(parse, db) && w < |db.workspaces| && Owns(db.workspaces[w], owner)
    ensures var revoked := RevokeWorkspace(db, owner, first);
            revoked.reply == Ok(WorkspaceIs(w, false)) && IsClosed(db, revoked.db, w, Revoked)
    ensures var reset := ResetWorkspace(db, owner, now, first);
            if db.workspaces[w].expiresAt > now
            then reset.reply == Ok(WorkspaceIs(w, false)) && IsEmptied(db, reset.db, w) && reset.db.workspaces == db.workspaces
            else reset == Outcome(db, Err(LabExpired))
    ensures var got := GetWorkspace(db, owner, now, first);
            if db.workspaces[w].expiresAt > now then got == Outcome(db, Ok(WorkspaceIs(w, false)))
            else got.reply == Err(LabExpired) && IsClosed(db, got.db, w, Expired)
  {
    OnlyOneIsOpen(parse, db, owner, w);
    DeactivateCloses(db, w, Revoked, first);
    DeactivateCloses(db, w, Expired, first);
    DisableEmpties(db, w, first);
  }

  /** Without an open workspace all three are refused. */
  lemma OwnerNeedsOne(db: Db, owner: Principal, now: int, first: nat)
    requires forall w :: 0 <= w < |db.workspaces| ==> !Owns(db.workspaces[w], owner)
    ensures RevokeWorkspace(db, owner, first) == Outcome(db, Err(LabResourceNotFound))
    ensures ResetWorkspace(db, owner, now, first) == Outcome(db, Err(LabResourceNotFound))
    ensures GetWorkspace(db, owner, now, first) == Outcome(db, Err(LabResourceNotFound))
  {}

  /** Expiring closes an open workspace and leaves every other alone. */
  lemma ExpiringClosesIff(db: Db, w: nat, first: nat)
    ensures var after := ExpireWorkspace(db, w, first);
            if w < |db.workspaces| && db.workspaces[w].status.Open? then IsClosed(db, after, w, Expired) else after == db
  {
    if w < |db.workspaces| { DeactivateCloses(db, w, Expired, first); }
  }

  // ---------------------------------------------------------------- creation's limit

  predicate IsWithinADay(workspaces: seq<Workspace>, owner: Principal, since: int, k: nat) {
    k < |workspaces| && workspaces[k].owner == owner && since <= workspaces[k].createdAt <= since + 86_400_000
  }

  lemma {:induction false} CountedInDay(workspaces: seq<Workspace>, owner: Principal, since: int, ids: set<nat>)
    requires forall k :: k in ids ==> IsWithinADay(workspaces, owner, since, k)
    ensures |ids| <= CreatedInDay(workspaces, owner, since)
  {
    if workspaces == [] {
      assert ids == {};
    } else {
      var n := |workspaces| - 1;
      forall k | k in ids - {n} ensures IsWithinADay(workspaces[..n], owner, since, k) {
        assert workspaces[..n][k] == workspaces[k];
      }
      CountedInDay(workspaces[..n], owner, since, ids - {n});
    }
  }

  /** In every reachable ledger, no owner has created more than three workspaces within any
      86,400,000 milliseconds. */
  lemma NoFourInADay(parse: Parser, seed: Db, steps: seq<Step>, owner: Principal, since: int, ids: set<nat>)
    requires IsSeed(seed) && RunIsPermitted(parse, seed, steps)
    requires forall k :: k in ids ==> IsWithinADay(Run(seed, steps).workspaces, owner, since, k)
    ensures |ids| <= 3
  {
    RunKeepsInv(parse, seed, steps);
    CountedInDay(Run(seed, steps).workspaces, owner, since, ids);
    assert CreatedInDay(Run(seed, steps).workspaces, owner, since) <= MAX_CREATIONS_PER_WINDOW;
  }

  function NewWorkspace(owner: Principal, org: string, now: int): Workspace {
    Workspace(owner, org, Open, now, now + 86_400_000)
  }

  lemma {:induction false} LookBackIsADay(workspaces: seq<Workspace>, owner: Principal, now: int)
    requires forall k :: 0 <= k < |workspaces| ==> workspaces[k].createdAt <= now
    ensures CreatedInDay(workspaces, owner, now - CREATION_WINDOW_MS) == CreatedSince(workspaces, owner, now - CREATION_WINDOW_MS)
  {
    if workspaces != [] {
      LookBackIsADay(workspaces[..|workspaces| - 1], owner, now);
    }
  }

  lemma OneMoreCounts(workspaces: seq<Workspace>, w: Workspace, since: int)
    requires since <= w.createdAt <= since + CREATION_WINDOW_MS
    ensures CreatedInDay(workspaces + [w], w.owner, since) == CreatedInDay(workspaces, w.owner, since) + 1
  {
    assert (workspaces + [w])[..|workspaces|] == workspaces;
  }

  lemma TooManyBreaks(workspaces: seq<Workspace>, w: Workspace, since: int)
    requires since <= w.createdAt <= since + CREATION_WINDOW_MS
    requires CreatedInDay(workspaces, w.owner, since) >= MAX_CREATIONS_PER_WINDOW
    ensures !CreationsAreLimited(workspaces + [w])
  {
    OneMoreCounts(workspaces, w, since);
  }

  /** When creations so far are not in the future, one more passes the count exactly when it
      breaks no limit. */
  lemma CountIsExact(workspaces: seq<Workspace>, w: Workspace)
    requires CreationsAreLimited(workspaces) && forall k :: 0 <= k < |workspaces| ==> workspaces[k].createdAt <= w.createdAt
    ensures CreatedSince(workspaces, w.owner, w.createdAt - CREATION_WINDOW_MS) < MAX_CREATIONS_PER_WINDOW
       <==> CreationsAreLimited(workspaces + [w])
  {
    LookBackIsADay(workspaces, w.owner, w.createdAt);
    if CreatedSince(workspaces, w.owner, w.createdAt - CREATION_WINDOW_MS) < MAX_CREATIONS_PER_WINDOW {
      CreatingStaysLimited(workspaces, w);
    } else {
      TooManyBreaks(workspaces, w, w.createdAt - CREATION_WINDOW_MS);
    }
  }

  lemma ClosingKeepsCounts(db: Db, w: nat, first: nat, owner: Principal, from: int)
    requires w < |db.workspaces|
    ensures CreatedSince(Deactivate(db, w, Expired, first).workspaces, owner, from) == CreatedSince(db.workspaces, owner, from)
  {
    DeactivateCloses(db, w, Expired, first);
    StatusKeepsCounts(db.workspaces, Deactivate(db, w, Expired, first).workspaces, owner, from);
  }

  lemma CreateIsAllowedIff(parse: Parser, db: Db, owner: Principal, org: string, now: int, first: nat)
    requires Inv(parse, db) && forall k :: 0 <= k < |db.workspaces| ==> db.workspaces[k].createdAt <= now
    requires var current := OpenWorkspace(db.workspaces, owner); current.Some? ==> db.workspaces[current.value].expiresAt <= now
    ensures CreateWorkspace(db, owner, org, now, first).reply.Ok?
       <==> CreationsAreLimited(db.workspaces + [NewWorkspace(owner, org, now)])
  {
    var current := OpenWorkspace(db.workspaces, owner);
    if current.Some? { ClosingKeepsCounts(db, current.value, first, owner, now - CREATION_WINDOW_MS); }
    CountIsExact(db.workspaces, NewWorkspace(owner, org, now));
  }

  /** Creating gives back the open workspace while it lasts. Otherwise an overdue one is
      closed first, and a new one, open for a day, is made exactly when that stays within the
      limit; a refusal changes nothing. */
  lemma CreateSucceedsIff(parse: Parser, db: Db, owner: Principal, org: string, now: int, first: nat)
    requires Inv(parse, db) && forall k :: 0 <= k < |db.workspaces| ==> db.workspaces[k].createdAt <= now
    ensures var outcome, current := CreateWorkspace(db, owner, org, now, first), OpenWorkspace(db.workspaces, owner);
            if current.Some? && db.workspaces[current.value].expiresAt > now
            then outcome == Outcome(db, Ok(WorkspaceIs(current.value, false)))
            else
              && (outcome.reply.Ok? <==> CreationsAreLimited(db.workspaces + [NewWorkspace(owner, org, now)]))
              && (outcome.reply.Ok? ==>
                    && outcome.reply.value == WorkspaceIs(|db.workspaces|, true)
                    && |outcome.db.workspaces| == |db.workspaces| + 1
                    && outcome.db.workspaces[|db.workspaces|] == NewWorkspace(owner, org, now)
                    && outcome.db.orgs == db.orgs[org := LabOrg]
                    && var cleared := outcome.db.(orgs := db.orgs, workspaces := outcome.db.workspaces[..|db.workspaces|]);
                       if current.Some? then IsClosed(db, cleared, current.value, Expired)
                       else cleared == db.(audit := cleared.audit))
              && (outcome.reply.Err? ==> outcome.db == db)
  {
    var outcome, current := CreateWorkspace(db, owner, org, now, first), OpenWorkspace(db.workspaces, owner);
    if current.None? || db.workspaces[current.value].expiresAt <= now {
      CreateIsAllowedIff(parse, db, owner, org, now, first);
      var cleared := if current.Some? then Deactivate(db, current.value, Expired, first) else db;
      if current.Some? { DeactivateCloses(db, current.value, Expired, first); }
      if outcome.reply.Ok? {
        assert outcome.db.workspaces[..|db.workspaces|] == cleared.workspaces;
      }
    }
  }

  // -------------------------------------------------------------------- the version log

  lemma EmptyingIsRecordedIff(before: Db, after: Db, w: nat)
    requires w < |before.workspaces| && IsEmptied(before, after, w)
    ensures after.changes == before.changes <==> ActiveIds(after.rows) == ActiveIds(before.rows)
  {
    var gone := ActiveIds(before.rows) - ActiveIds(after.rows);
    assert ActiveIds(after.rows) <= ActiveIds(before.rows);
    if gone == {} {
      assert ActiveIds(before.rows) <= ActiveIds(after.rows);
    } else {
      assert |gone| > 0;
    }
  }

  lemma DisablingIsRecordedIff(db: Db, w: nat, first: nat)
    requires w < |db.workspaces|
    ensures var after := DisableResources(db, w, first);
            after.changes == db.changes <==> ActiveIds(after.rows) == ActiveIds(db.rows)
  {
    DisableEmpties(db, w, first);
    EmptyingIsRecordedIff(db, DisableResources(db, w, first), w);
  }

  lemma OwnersStepIsRecordedIff(db: Db, owner: Principal, first: nat)
    ensures var w := OpenWorkspace(db.workspaces, owner);
            w.Some? ==>
              var after := DisableResources(db, w.value, first);
              after.changes == db.changes <==> ActiveIds(after.rows) == ActiveIds(db.rows)
  {
    var w := OpenWorkspace(db.workspaces, owner);
    if w.Some? { DisablingIsRecordedIff(db, w.value, first); }
  }

  predicate IsOfWorkspaces(op: Op) {
    op.OpCreateWorkspace? || op.OpGetWorkspace? || op.OpRevokeWorkspace? || op.OpResetWorkspace? || op.OpExpireWorkspace?
  }

  lemma WorkspaceStepIsRecordedIff(db: Db, op: Op, first: nat)
    requires IsOfWorkspaces(op)
    ensures var after := Execute(db, op, first).db;
            after.changes == db.changes <==> ActiveIds(after.rows) == ActiveIds(db.rows)
  {
    if op.OpExpireWorkspace? {
      if op.workspace < |db.workspaces| { DisablingIsRecordedIff(db, op.workspace, first); }
    } else {
      OwnersStepIsRecordedIff(db, op.owner, first);
    }
  }

  lemma DeployIsRecordedIff(parse: Parser, db: Db, i: DeployInput, now: int, version: nat)
    requires Inv(parse, db)
    ensures var after := Deploy(db, i, now, version).db;
            after.changes == db.changes <==> ActiveIds(after.rows) == ActiveIds(db.rows)
  {
    DeploySucceedsIff(parse, db, i, now, version);
    if Deploy(db, i, now, version).reply.Ok? {
      ActiveWith(db, i);
      assert |db.rows| !in ActiveIds(db.rows);
    }
  }

  /** Of all transactions exactly those record a configuration change that make other rows the
      active ones, or switch a proxy on or off on request. */
  lemma ChangeIsRecordedIff(parse: Parser, db: Db, op: Op, first: nat)
    requires Inv(parse, db)
    ensures var after := Execute(db, op, first).db;
            after.changes == db.changes
            <==> && ActiveIds(after.rows) == ActiveIds(db.rows)
                 && (op.OpUpdateProxy? && op.proxy in db.proxies ==>
                       op.proxy in after.proxies && after.proxies[op.proxy].active == db.proxies[op.proxy].active)
  {
    match op
    case OpDeploy(input, now) => DeployIsRecordedIff(parse, db, input, now, first);
    case OpRetire(deployment, allow) => RetireSucceedsIff(parse, db, deployment, allow, first);
    case OpUpdateProxy(proxy, name, active) => UpdateSucceedsIff(db, proxy, name, active, first);
    case _ => if IsOfWorkspaces(op) { WorkspaceStepIsRecordedIff(db, op, first); }
  }
}
