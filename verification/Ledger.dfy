/** The control plane's tables and what each transaction does to them, on values.
    A transaction that throws leaves the tables as they were. */
module Ledger {
  import opened Schema
  import opened Bundle

  const WORKSPACE_TTL_MS: int := 24 * 60 * 60 * 1000
  const CREATION_WINDOW_MS: int := 24 * 60 * 60 * 1000
  const MAX_CREATIONS_PER_WINDOW: nat := 3

  datatype OrgKind = StandardOrg | LabOrg

  datatype Environment = Environment(stage: Stage, region: string, host: string, port: string)

  /** Revision number n is the n-th element of `revisions`. */
  datatype Proxy = Proxy(name: string, active: bool, systemManaged: bool, org: string, revisions: seq<Revision>)

  datatype Revision = Revision(basePath: string, operations: seq<Operation>)

  datatype Principal = Principal(issuer: string, subject: string)

  datatype WorkspaceStatus = Open | Expired | Revoked

  datatype Workspace = Workspace(owner: Principal, org: string, status: WorkspaceStatus, createdAt: int, expiresAt: int)

  datatype RowStatus = Active | Retired

  datatype Deployment = Deployment(
    proxy: string,
    revision: nat,
    environment: string,
    workspace: Option<nat>,
    upstream: Option<string>,
    status: RowStatus)

  datatype ChangeKind =
    | DeploymentCreated | DeploymentReplaced | DeploymentRolledBack | DeploymentRetired
    | ProxyActivated | ProxyDeactivated
    | RoutesRemoved

  datatype Change = Change(version: nat, kind: ChangeKind)

  /** Audit events that name deployments; the others carry only their action. */
  datatype AuditEvent =
    | DeployAudit(deployment: nat, replaced: Option<nat>, rollback: bool)
    | RetireAudit(deployment: nat)
    | WorkspaceAudit(workspace: nat, retired: seq<nat>)
    | OtherAudit(action: string)

  /** Deployments and workspaces are identified by their place in an append-only table. */
  datatype Db = Db(
    orgs: map<string, OrgKind>,
    environments: map<string, Environment>,
    proxies: map<string, Proxy>,
    rows: seq<Deployment>,
    workspaces: seq<Workspace>,
    changes: seq<Change>,
    audit: seq<AuditEvent>)

  datatype LedgerError =
    | ProxyNotFound | RevisionNotFound | EnvironmentNotFound | SystemProxyImmutable
    | UpstreamRequired | PromotionRequired | LabWorkspaceInvalid | DeploymentConflict
    | ActiveDeploymentNotFound | OrganizationNotFound | UniqueViolation | InvalidName
    | LabExpired | LabLimitReached | LabResourceNotFound

  datatype Reply = Done | Deployed(deployment: nat, version: nat) | WorkspaceIs(workspace: nat, created: bool)

  datatype Outcome = Outcome(db: Db, reply: Result<Reply, LedgerError>)

  function Versions(db: Db): set<nat> {
    set c | c in db.changes :: c.version
  }

  // -------------------------------------------------------------- deployments

  /** The upstream as given: `valid` says that it parses as an http or https URL. */
  datatype Upstream = Upstream(text: string, valid: bool)

  datatype DeployInput = DeployInput(
    proxy: string,
    revision: nat,
    environment: string,
    upstream: Option<Upstream>,
    workspace: Option<nat>,
    allowSystemManaged: bool)

  function NormalizeUpstream(u: Option<Upstream>): Result<Option<string>, LedgerError> {
    match u
    case None => Ok(None)
    case Some(Upstream(text, valid)) => if valid then Ok(Some(WithoutTrailingSlashes(text))) else Err(UpstreamRequired)
  }

  function PreviousStage(s: Stage): Option<Stage> {
    match s
    case Qual => None
    case Pprod => Some(Qual)
    case Prod => Some(Pprod)
  }

  predicate HasRevision(proxies: map<string, Proxy>, proxy: string, revision: nat) {
    proxy in proxies && 1 <= revision <= |proxies[proxy].revisions|
  }

  function RevisionOf(proxies: map<string, Proxy>, proxy: string, revision: nat): Revision
    requires HasRevision(proxies, proxy, revision)
  {
    proxies[proxy].revisions[revision - 1]
  }

  function BasePathOf(proxies: map<string, Proxy>, row: Deployment): Option<string> {
    if HasRevision(proxies, row.proxy, row.revision) then Some(RevisionOf(proxies, row.proxy, row.revision).basePath) else None
  }

  /** A row of the standard scope for this revision, at this stage and region. */
  predicate IsPromotion(
    environments: map<string, Environment>, row: Deployment, proxy: string, revision: nat, stage: Stage, region: string)
  {
    && row.proxy == proxy && row.revision == revision && row.workspace.None?
    && row.environment in environments
    && environments[row.environment].stage == stage && environments[row.environment].region == region
  }

  predicate HasPromotion(db: Db, i: DeployInput, stage: Stage, region: string) {
    exists k :: 0 <= k < |db.rows| && IsPromotion(db.environments, db.rows[k], i.proxy, i.revision, stage, region)
  }

  /** Another proxy already serves the base path in the same environment and scope. */
  predicate HasConflict(db: Db, i: DeployInput, basePath: string) {
    exists k :: 0 <= k < |db.rows| && db.rows[k].status.Active? && db.rows[k].environment == i.environment
      && db.rows[k].workspace == i.workspace && db.rows[k].proxy != i.proxy
      && BasePathOf(db.proxies, db.rows[k]) == Some(basePath)
  }

  predicate IsSlot(row: Deployment, proxy: string, environment: string, workspace: Option<nat>) {
    row.status.Active? && row.proxy == proxy && row.environment == environment && row.workspace == workspace
  }

  /** The active row of a (proxy, environment, scope), if there is one. */
  function FindActive(rows: seq<Deployment>, proxy: string, environment: string, workspace: Option<nat>): (r: Option<nat>)
    ensures r.Some? ==> r.value < |rows| && IsSlot(rows[r.value], proxy, environment, workspace)
    ensures r.None? ==> forall k :: 0 <= k < |rows| ==> !IsSlot(rows[k], proxy, environment, workspace)
  {
    if rows == [] then None
    else if IsSlot(rows[|rows| - 1], proxy, environment, workspace) then Some(|rows| - 1)
    else FindActive(rows[..|rows| - 1], proxy, environment, workspace)
  }

  /** The partial unique index on (proxy, environment) over active rows would
      refuse the new row: the proxy is active there in another scope. */
  predicate BreaksUniqueIndex(db: Db, i: DeployInput) {
    exists k :: 0 <= k < |db.rows| && db.rows[k].status.Active? && db.rows[k].proxy == i.proxy
      && db.rows[k].environment == i.environment && db.rows[k].workspace != i.workspace
  }

  predicate LabDeploymentIsValid(db: Db, i: DeployInput, now: int)
    requires i.workspace.Some? && i.proxy in db.proxies && i.environment in db.environments
  {
    && i.workspace.value < |db.workspaces|
    && db.workspaces[i.workspace.value].org == db.proxies[i.proxy].org
    && db.workspaces[i.workspace.value].status.Open?
    && db.workspaces[i.workspace.value].expiresAt > now
    && db.environments[i.environment].stage.Qual?
  }

  datatype DeployPlan = DeployPlan(upstream: Option<string>, previous: Option<nat>, rollback: bool)

  /** The reads and refusals of `deployProxyRevision`, in their order. */
  function PlanDeploy(db: Db, i: DeployInput, now: int): Result<DeployPlan, LedgerError> {
    match NormalizeUpstream(i.upstream)
    case Err(e) => Err(e)
    case Ok(upstream) =>
      if i.proxy !in db.proxies then Err(ProxyNotFound)
      else if db.proxies[i.proxy].systemManaged && !i.allowSystemManaged then Err(SystemProxyImmutable)
      else if !HasRevision(db.proxies, i.proxy, i.revision) then Err(RevisionNotFound)
      else if i.environment !in db.environments then Err(EnvironmentNotFound)
      else
        var environment, revision := db.environments[i.environment], RevisionOf(db.proxies, i.proxy, i.revision);
        if i.workspace.Some? && !LabDeploymentIsValid(db, i, now) then Err(LabWorkspaceInvalid)
        else if !UpstreamSuffices(revision.operations, upstream) then Err(UpstreamRequired)
        else
          var required := if i.workspace.Some? then None else PreviousStage(environment.stage);
          if required.Some? && !HasPromotion(db, i, required.value, environment.region) then Err(PromotionRequired)
          else if HasConflict(db, i, revision.basePath) then Err(DeploymentConflict)
          else if BreaksUniqueIndex(db, i) then Err(UniqueViolation)
          else
            var previous := FindActive(db.rows, i.proxy, i.environment, i.workspace);
            Ok(DeployPlan(upstream, previous, previous.Some? && i.revision < db.rows[previous.value].revision))
  }

  function RetireRow(rows: seq<Deployment>, id: nat): (r: seq<Deployment>)
    requires id < |rows|
    ensures |r| == |rows|
  {
    rows[id := rows[id].(status := Retired)]
  }

  /** The writes of `deployProxyRevision`. */
  function CommitDeploy(db: Db, i: DeployInput, plan: DeployPlan, version: nat): Outcome
    requires plan.previous.Some? ==> plan.previous.value < |db.rows|
  {
    var kept := if plan.previous.Some? then RetireRow(db.rows, plan.previous.value) else db.rows;
    var id := |db.rows|;
    var row := Deployment(i.proxy, i.revision, i.environment, i.workspace, plan.upstream, Active);
    var kind := if plan.rollback then DeploymentRolledBack else if plan.previous.Some? then DeploymentReplaced else DeploymentCreated;
    Outcome(
      db.(rows := kept + [row],
          audit := db.audit + [DeployAudit(id, plan.previous, plan.rollback)],
          changes := db.changes + [Change(version, kind)]),
      Ok(Deployed(id, version)))
  }

  function Deploy(db: Db, i: DeployInput, now: int, version: nat): Outcome {
    match PlanDeploy(db, i, now)
    case Err(e) => Outcome(db, Err(e))
    case Ok(plan) => CommitDeploy(db, i, plan, version)
  }

  /** The refusals of `retireProxyDeployment`. */
  function PlanRetire(db: Db, id: nat, allowSystemManaged: bool): Result<(), LedgerError> {
    if id >= |db.rows| || !db.rows[id].status.Active? then Err(ActiveDeploymentNotFound)
    else if db.rows[id].proxy in db.proxies && db.proxies[db.rows[id].proxy].systemManaged && !allowSystemManaged then
      Err(SystemProxyImmutable)
    else Ok(())
  }

  function CommitRetire(db: Db, id: nat, version: nat): Outcome
    requires id < |db.rows|
  {
    Outcome(
      db.(rows := RetireRow(db.rows, id),
          audit := db.audit + [RetireAudit(id)],
          changes := db.changes + [Change(version, DeploymentRetired)]),
      Ok(Deployed(id, version)))
  }

  function Retire(db: Db, id: nat, allowSystemManaged: bool, version: nat): Outcome {
    match PlanRetire(db, id, allowSystemManaged)
    case Err(e) => Outcome(db, Err(e))
    case Ok(_) => CommitRetire(db, id, version)
  }

  // ------------------------------------------------------ proxies and revisions

  function CreateOrganization(db: Db, org: string): Outcome {
    if org in db.orgs then Outcome(db, Err(UniqueViolation))
    else
      Outcome(
        db.(orgs := db.orgs[org := StandardOrg], audit := db.audit + [OtherAudit("organization.create")]),
        Ok(Done))
  }

  function CreateProxy(db: Db, id: string, name: string, org: string, systemManaged: bool): Outcome {
    if name == "" || |name| > 120 then Outcome(db, Err(InvalidName))
    else if org !in db.orgs then Outcome(db, Err(OrganizationNotFound))
    else if id in db.proxies then Outcome(db, Err(UniqueViolation))
    else
      Outcome(
        db.(proxies := db.proxies[id := Proxy(name, true, systemManaged, org, [])],
            audit := db.audit + [OtherAudit("proxy.create")]),
        Ok(Done))
  }

  function ImportRevision(db: Db, proxy: string, bundle: CompiledBundle, allowSystemManaged: bool): Outcome {
    if proxy !in db.proxies then Outcome(db, Err(ProxyNotFound))
    else
      var p := db.proxies[proxy];
      if p.systemManaged && !allowSystemManaged then Outcome(db, Err(SystemProxyImmutable))
      else
        Outcome(
          db.(proxies := db.proxies[proxy := p.(revisions := p.revisions + [Revision(bundle.basePath, bundle.operations)])],
              audit := db.audit + [OtherAudit("proxyRevision.import")]),
          Ok(Done))
  }

  /** `updateApiProxy`, given the name already trimmed. */
  function UpdateProxy(db: Db, proxy: string, name: Option<string>, active: Option<bool>, version: nat): Outcome {
    if name.Some? && (name.value == "" || |name.value| > 120) then Outcome(db, Err(InvalidName))
    else if proxy !in db.proxies then Outcome(db, Err(ProxyNotFound))
    else
      var p := db.proxies[proxy];
      if p.systemManaged then Outcome(db, Err(SystemProxyImmutable))
      else
        var updated := p.(
          name := if name.Some? then name.value else p.name,
          active := if active.Some? then active.value else p.active);
        Outcome(
          db.(proxies := db.proxies[proxy := updated],
              audit := db.audit + [OtherAudit("proxy.update")],
              changes :=
                if updated.active == p.active then db.changes
                else db.changes + [Change(version, if updated.active then ProxyActivated else ProxyDeactivated)]),
          Ok(Done))
  }

  // --------------------------------------------------------------- workspaces

  predicate Owns(w: Workspace, owner: Principal) {
    w.owner == owner && w.status.Open?
  }

  /** The owner's active workspace, if there is one. */
  function OpenWorkspace(workspaces: seq<Workspace>, owner: Principal): (r: Option<nat>)
    ensures r.Some? ==> r.value < |workspaces| && Owns(workspaces[r.value], owner)
    ensures r.None? ==> forall k :: 0 <= k < |workspaces| ==> !Owns(workspaces[k], owner)
  {
    if workspaces == [] then None
    else if Owns(workspaces[|workspaces| - 1], owner) then Some(|workspaces| - 1)
    else OpenWorkspace(workspaces[..|workspaces| - 1], owner)
  }

  /** How many of the owner's workspaces were created from `since` on. */
  function CreatedSince(workspaces: seq<Workspace>, owner: Principal, since: int): nat {
    if workspaces == [] then 0
    else
      var last := workspaces[|workspaces| - 1];
      CreatedSince(workspaces[..|workspaces| - 1], owner, since)
      + if last.owner == owner && last.createdAt >= since then 1 else 0
  }

  predicate IsActiveIn(row: Deployment, workspace: nat) {
    row.workspace == Some(workspace) && row.status.Active?
  }

  /** The ids of a workspace's active rows. */
  function ActiveIn(rows: seq<Deployment>, workspace: nat): (ids: seq<nat>)
    ensures forall id: nat :: id in ids <==> id < |rows| && IsActiveIn(rows[id], workspace)
  {
    if rows == [] then []
    else
      var last := |rows| - 1;
      ActiveIn(rows[..last], workspace) + if IsActiveIn(rows[last], workspace) then [last] else []
  }

  /** `updateMany` over a workspace's active rows. */
  function RetireAllIn(rows: seq<Deployment>, workspace: nat): (r: seq<Deployment>)
    ensures |r| == |rows|
    ensures forall k :: 0 <= k < |rows| ==>
              r[k] == if IsActiveIn(rows[k], workspace) then rows[k].(status := Retired) else rows[k]
  {
    if rows == [] then []
    else
      var last := rows[|rows| - 1];
      RetireAllIn(rows[..|rows| - 1], workspace) + [if IsActiveIn(last, workspace) then last.(status := Retired) else last]
  }

  function DeactivateProxies(proxies: map<string, Proxy>, org: string): map<string, Proxy> {
    map id | id in proxies :: if proxies[id].org == org then proxies[id].(active := false) else proxies[id]
  }

  function RemovalChanges(n: nat, first: nat): (r: seq<Change>)
    ensures |r| == n && forall k :: 0 <= k < n ==> r[k] == Change(first + k, RoutesRemoved)
  {
    if n == 0 then [] else RemovalChanges(n - 1, first) + [Change(first + n - 1, RoutesRemoved)]
  }

  /** `disableWorkspaceResources`, on the tables modelled here. */
  function DisableResources(db: Db, workspace: nat, first: nat): Db
    requires workspace < |db.workspaces|
  {
    var retired := ActiveIn(db.rows, workspace);
    db.(rows := RetireAllIn(db.rows, workspace),
        proxies := DeactivateProxies(db.proxies, db.workspaces[workspace].org),
        changes := db.changes + RemovalChanges(|retired|, first),
        audit := db.audit + [WorkspaceAudit(workspace, retired)])
  }

  /** `deactivateWorkspaceResources`. */
  function Deactivate(db: Db, workspace: nat, status: WorkspaceStatus, first: nat): Db
    requires workspace < |db.workspaces|
  {
    var disabled := DisableResources(db, workspace, first);
    disabled.(workspaces := disabled.workspaces[workspace := disabled.workspaces[workspace].(status := status)])
  }

  /** `createPersonalLabWorkspace`; `org` is the fresh organization's id. */
  function CreateWorkspace(db: Db, owner: Principal, org: string, now: int, first: nat): Outcome {
    var current := OpenWorkspace(db.workspaces, owner);
    if current.Some? && db.workspaces[current.value].expiresAt > now then
      Outcome(db, Ok(WorkspaceIs(current.value, false)))
    else
      var cleared := if current.Some? then Deactivate(db, current.value, Expired, first) else db;
      if CreatedSince(cleared.workspaces, owner, now - CREATION_WINDOW_MS) >= MAX_CREATIONS_PER_WINDOW then
        Outcome(db, Err(LabLimitReached))
      else
        Outcome(
          cleared.(orgs := cleared.orgs[org := LabOrg],
                   workspaces := cleared.workspaces + [Workspace(owner, org, Open, now, now + WORKSPACE_TTL_MS)],
                   audit := cleared.audit + [OtherAudit("labWorkspace.create")]),
          Ok(WorkspaceIs(|cleared.workspaces|, true)))
  }

  /** `expirePersonalLabWorkspace`. */
  function ExpireWorkspace(db: Db, workspace: nat, first: nat): Db {
    if workspace >= |db.workspaces| || !db.workspaces[workspace].status.Open? then db
    else Deactivate(db, workspace, Expired, first)
  }

  /** `getPersonalLabWorkspace`: a lookup that expires what it finds overdue. */
  function GetWorkspace(db: Db, owner: Principal, now: int, first: nat): Outcome {
    match OpenWorkspace(db.workspaces, owner)
    case None => Outcome(db, Err(LabResourceNotFound))
    case Some(w) =>
      if db.workspaces[w].expiresAt <= now then Outcome(ExpireWorkspace(db, w, first), Err(LabExpired))
      else Outcome(db, Ok(WorkspaceIs(w, false)))
  }

  function RevokeWorkspace(db: Db, owner: Principal, first: nat): Outcome {
    match OpenWorkspace(db.workspaces, owner)
    case None => Outcome(db, Err(LabResourceNotFound))
    case Some(w) => Outcome(Deactivate(db, w, Revoked, first), Ok(WorkspaceIs(w, false)))
  }

  /** `resetPersonalLabWorkspace`: for an overdue workspace the throw undoes the expiry it has just written. */
  function ResetWorkspace(db: Db, owner: Principal, now: int, first: nat): Outcome {
    match OpenWorkspace(db.workspaces, owner)
    case None => Outcome(db, Err(LabResourceNotFound))
    case Some(w) =>
      if db.workspaces[w].expiresAt <= now then Outcome(db, Err(LabExpired))
      else Outcome(DisableResources(db, w, first), Ok(WorkspaceIs(w, false)))
  }

  // --------------------------------------------------------------------- runs

  datatype Op =
    | OpCreateOrganization(org: string)
    | OpCreateProxy(proxy: string, name: string, org: string, systemManaged: bool)
    | OpImportRevision(proxy: string, bundle: CompiledBundle, allowSystemManaged: bool)
    | OpUpdateProxy(proxy: string, newName: Option<string>, active: Option<bool>)
    | OpDeploy(input: DeployInput, now: int)
    | OpRetire(deployment: nat, allowSystemManaged: bool)
    | OpCreateWorkspace(owner: Principal, org: string, now: int)
    | OpGetWorkspace(owner: Principal, now: int)
    | OpRevokeWorkspace(owner: Principal)
    | OpResetWorkspace(owner: Principal, now: int)
    | OpExpireWorkspace(workspace: nat)

  /** One committed or rolled-back transaction; `first` is the first version the
      sequence hands it. */
  function Execute(db: Db, op: Op, first: nat): Outcome {
    match op
    case OpCreateOrganization(org) => CreateOrganization(db, org)
    case OpCreateProxy(proxy, name, org, systemManaged) => CreateProxy(db, proxy, name, org, systemManaged)
    case OpImportRevision(proxy, bundle, allow) => ImportRevision(db, proxy, bundle, allow)
    case OpUpdateProxy(proxy, name, active) => UpdateProxy(db, proxy, name, active, first)
    case OpDeploy(input, now) => Deploy(db, input, now, first)
    case OpRetire(deployment, allow) => Retire(db, deployment, allow, first)
    case OpCreateWorkspace(owner, org, now) => CreateWorkspace(db, owner, org, now, first)
    case OpGetWorkspace(owner, now) => GetWorkspace(db, owner, now, first)
    case OpRevokeWorkspace(owner) => RevokeWorkspace(db, owner, first)
    case OpResetWorkspace(owner, now) => ResetWorkspace(db, owner, now, first)
    case OpExpireWorkspace(workspace) => Outcome(ExpireWorkspace(db, workspace, first), Ok(Done))
  }

  /** Random ids are new, and an imported bundle came out of the compiler. */
  ghost predicate IsPermitted(parse: Parser, db: Db, op: Op) {
    match op
    case OpCreateWorkspace(_, org, _) => org !in db.orgs
    case OpImportRevision(proxy, bundle, _) =>
      proxy in db.proxies ==>
        exists apis, gateway :: Compile(parse, apis, gateway, db.proxies[proxy].systemManaged) == Ok(bundle)
    case _ => true
  }

  datatype Step = Step(op: Op, first: nat)

  function Run(db: Db, steps: seq<Step>): Db
    decreases |steps|
  {
    if steps == [] then db
    else
      var s := steps[|steps| - 1];
      Execute(Run(db, steps[..|steps| - 1]), s.op, s.first).db
  }

  ghost predicate RunIsPermitted(parse: Parser, db: Db, steps: seq<Step>)
    decreases |steps|
  {
    steps != [] ==>
      && RunIsPermitted(parse, db, steps[..|steps| - 1])
      && IsPermitted(parse, Run(db, steps[..|steps| - 1]), steps[|steps| - 1].op)
  }

  /** The seeded database: environments only. */
  predicate IsSeed(db: Db) {
    && db.orgs == map[] && db.proxies == map[] && db.rows == [] && db.workspaces == []
    && db.changes == [] && db.audit == []
  }
}
