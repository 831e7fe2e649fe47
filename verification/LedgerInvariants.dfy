/** What every transaction keeps true of the control plane's tables. */
module LedgerInvariants {
  import opened Schema
  import opened Bundle
  import opened Ledger

  // ------------------------------------------------------------- how it evolves

  /** A row keeps everything but its status, and a retired row stays retired. */
  predicate RowEvolves(before: Deployment, after: Deployment) {
    after == before || after == before.(status := Retired)
  }

  predicate WorkspaceEvolves(before: Workspace, after: Workspace) {
    after == before || (before.status.Open? && after == before.(status := after.status))
  }

  predicate ProxyEvolves(before: Proxy, after: Proxy) {
    && after.org == before.org && after.systemManaged == before.systemManaged
    && before.revisions <= after.revisions
  }

  ghost predicate RowsEvolve(before: seq<Deployment>, after: seq<Deployment>) {
    |before| <= |after| && forall k :: 0 <= k < |before| ==> RowEvolves(before[k], after[k])
  }

  ghost predicate WorkspacesEvolve(before: seq<Workspace>, after: seq<Workspace>) {
    |before| <= |after| && forall k :: 0 <= k < |before| ==> WorkspaceEvolves(before[k], after[k])
  }

  ghost predicate ProxiesEvolve(before: map<string, Proxy>, after: map<string, Proxy>) {
    forall p :: p in before ==> p in after && ProxyEvolves(before[p], after[p])
  }

  ghost predicate OrgsEvolve(before: map<string, OrgKind>, after: map<string, OrgKind>) {
    forall o :: o in before ==> o in after && after[o] == before[o]
  }

  /** Nothing is deleted, revisions and identities are immutable, logs only grow. */
  ghost predicate Evolves(before: Db, after: Db) {
    && after.environments == before.environments
    && OrgsEvolve(before.orgs, after.orgs)
    && ProxiesEvolve(before.proxies, after.proxies)
    && RowsEvolve(before.rows, after.rows)
    && WorkspacesEvolve(before.workspaces, after.workspaces)
    && before.changes <= after.changes
    && before.audit <= after.audit
  }

  // ------------------------------------------------------------- the invariants

  /** Rows point at things that exist, with an upstream where the revision forwards;
      lab rows stay within their workspace's organization and the qual stage. */
  predicate RowIsRooted(
    row: Deployment, proxies: map<string, Proxy>, environments: map<string, Environment>, workspaces: seq<Workspace>)
  {
    && HasRevision(proxies, row.proxy, row.revision)
    && UpstreamSuffices(RevisionOf(proxies, row.proxy, row.revision).operations, row.upstream)
    && row.environment in environments
    && (row.workspace.Some? ==>
          && row.workspace.value < |workspaces|
          && workspaces[row.workspace.value].org == proxies[row.proxy].org
          && environments[row.environment].stage.Qual?)
  }

  ghost predicate Rooted(
    rows: seq<Deployment>, proxies: map<string, Proxy>, environments: map<string, Environment>, workspaces: seq<Workspace>)
  {
    forall k :: 0 <= k < |rows| ==> RowIsRooted(rows[k], proxies, environments, workspaces)
  }

  /** At most one active row per proxy and environment, in any scope. */
  ghost predicate SlotsAreUnique(rows: seq<Deployment>) {
    forall j, k :: 0 <= j < k < |rows| && rows[j].status.Active? && rows[k].status.Active? ==>
      rows[j].proxy != rows[k].proxy || rows[j].environment != rows[k].environment
  }

  /** At most one active row per environment, scope and base path. */
  ghost predicate PathsAreUnique(rows: seq<Deployment>, proxies: map<string, Proxy>) {
    forall j, k :: 0 <= j < k < |rows| && rows[j].status.Active? && rows[k].status.Active?
      && rows[j].environment == rows[k].environment && rows[j].workspace == rows[k].workspace
      ==> BasePathOf(proxies, rows[j]) != BasePathOf(proxies, rows[k])
  }

  /** An active lab row belongs to an open workspace. */
  ghost predicate LabRowsAreOpen(rows: seq<Deployment>, workspaces: seq<Workspace>) {
    forall k :: 0 <= k < |rows| && rows[k].status.Active? && rows[k].workspace.Some? ==>
      rows[k].workspace.value < |workspaces| && workspaces[rows[k].workspace.value].status.Open?
  }

  /** Every standard row above qual has an earlier row of the same revision and
      region one stage below. */
  ghost predicate Promoted(rows: seq<Deployment>, environments: map<string, Environment>) {
    forall k :: 0 <= k < |rows| ==> IsPromoted(rows, environments, k)
  }

  ghost predicate IsPromoted(rows: seq<Deployment>, environments: map<string, Environment>, k: nat)
    requires k < |rows|
  {
    rows[k].workspace.None? && rows[k].environment in environments
    && PreviousStage(environments[rows[k].environment].stage).Some? ==>
      exists j :: 0 <= j < k && IsPromotion(environments, rows[j], rows[k].proxy, rows[k].revision,
        PreviousStage(environments[rows[k].environment].stage).value, environments[rows[k].environment].region)
  }

  /** Each workspace has a lab organization of its own, and an owner has at most
      one open workspace. */
  ghost predicate WorkspacesAreOwned(workspaces: seq<Workspace>, orgs: map<string, OrgKind>) {
    && (forall k :: 0 <= k < |workspaces| ==> workspaces[k].org in orgs && orgs[workspaces[k].org].LabOrg?)
    && (forall j, k :: 0 <= j < k < |workspaces| ==> workspaces[j].org != workspaces[k].org)
    && (forall j, k :: 0 <= j < k < |workspaces| && workspaces[j].status.Open? && workspaces[k].status.Open? ==>
          workspaces[j].owner != workspaces[k].owner)
  }

  /** How many of the owner's workspaces were created in the 24 hours from `lo` on, both ends included. */
  function CreatedInDay(workspaces: seq<Workspace>, owner: Principal, lo: int): nat {
    if workspaces == [] then 0
    else
      var last := workspaces[|workspaces| - 1];
      CreatedInDay(workspaces[..|workspaces| - 1], owner, lo)
      + if last.owner == owner && lo <= last.createdAt <= lo + CREATION_WINDOW_MS then 1 else 0
  }

  /** No 24-hour interval, wherever it starts, sees more than three creations by one owner. */
  ghost predicate CreationsAreLimited(workspaces: seq<Workspace>) {
    forall owner, lo :: CreatedInDay(workspaces, owner, lo) <= MAX_CREATIONS_PER_WINDOW
  }

  ghost predicate ProxiesAreHomed(parse: Parser, proxies: map<string, Proxy>, orgs: map<string, OrgKind>) {
    forall p :: p in proxies ==> proxies[p].org in orgs && RevisionsAreCompiled(parse, proxies[p])
  }

  ghost predicate RevisionsAreCompiled(parse: Parser, p: Proxy) {
    forall n, k :: 0 <= n < |p.revisions| && 0 <= k < |p.revisions[n].operations| ==>
      WellCompiled(parse, p.revisions[n].operations[k], p.systemManaged)
  }

  /** The deployments an audit trail says are live. */
  function Live(audit: seq<AuditEvent>): set<nat> {
    if audit == [] then {}
    else
      var before := Live(audit[..|audit| - 1]);
      match audit[|audit| - 1]
      case DeployAudit(id, Some(replaced), _) => before - {replaced} + {id}
      case DeployAudit(id, None, _) => before + {id}
      case RetireAudit(id) => before - {id}
      case WorkspaceAudit(_, retired) => before - (set id | id in retired)
      case OtherAudit(_) => before
  }

  function ActiveIds(rows: seq<Deployment>): set<nat> {
    set k: nat | k < |rows| && rows[k].status.Active?
  }

  ghost predicate Inv(parse: Parser, db: Db) {
    && Rooted(db.rows, db.proxies, db.environments, db.workspaces)
    && SlotsAreUnique(db.rows)
    && PathsAreUnique(db.rows, db.proxies)
    && LabRowsAreOpen(db.rows, db.workspaces)
    && Promoted(db.rows, db.environments)
    && WorkspacesAreOwned(db.workspaces, db.orgs)
    && CreationsAreLimited(db.workspaces)
    && ProxiesAreHomed(parse, db.proxies, db.orgs)
    && Live(db.audit) == ActiveIds(db.rows)
  }

  // ---------------------------------------------- what each kind of edit keeps

  /** Retiring rows, in any number, keeps what holds of rows. */
  lemma RetiringKeepsRows(
    rows: seq<Deployment>, after: seq<Deployment>, proxies: map<string, Proxy>,
    environments: map<string, Environment>, workspaces: seq<Workspace>)
    requires RowsEvolve(rows, after) && |after| == |rows|
    requires Rooted(rows, proxies, environments, workspaces) && SlotsAreUnique(rows) && PathsAreUnique(rows, proxies)
    requires LabRowsAreOpen(rows, workspaces)
    ensures Rooted(after, proxies, environments, workspaces) && SlotsAreUnique(after) && PathsAreUnique(after, proxies)
    ensures LabRowsAreOpen(after, workspaces)
  {}

  lemma RetiringKeepsPromotions(rows: seq<Deployment>, after: seq<Deployment>, environments: map<string, Environment>)
    requires RowsEvolve(rows, after) && |after| == |rows| && Promoted(rows, environments)
    ensures Promoted(after, environments)
  {
    forall k | 0 <= k < |after| ensures IsPromoted(after, environments, k) {
      assert RowEvolves(rows[k], after[k]) && IsPromoted(rows, environments, k);
      assert forall j :: 0 <= j < k ==> RowEvolves(rows[j], after[j]);
    }
  }

  /** New revisions, renames and switches keep what rows say about proxies. */
  lemma ProxyEditsKeepRows(
    rows: seq<Deployment>, proxies: map<string, Proxy>, after: map<string, Proxy>,
    environments: map<string, Environment>, workspaces: seq<Workspace>)
    requires ProxiesEvolve(proxies, after)
    requires Rooted(rows, proxies, environments, workspaces) && PathsAreUnique(rows, proxies)
    ensures Rooted(rows, after, environments, workspaces) && PathsAreUnique(rows, after)
    ensures forall k :: 0 <= k < |rows| ==> BasePathOf(after, rows[k]) == BasePathOf(proxies, rows[k])
  {}

  lemma WorkspaceEditsKeepRoots(
    rows: seq<Deployment>, proxies: map<string, Proxy>, environments: map<string, Environment>,
    workspaces: seq<Workspace>, after: seq<Workspace>)
    requires WorkspacesEvolve(workspaces, after) && Rooted(rows, proxies, environments, workspaces)
    ensures Rooted(rows, proxies, environments, after)
  {}

  /** Changing statuses does not change when workspaces were created. */
  lemma StatusKeepsCounts(before: seq<Workspace>, after: seq<Workspace>, owner: Principal, lo: int)
    requires |after| == |before|
    requires forall k :: 0 <= k < |before| ==> after[k].owner == before[k].owner && after[k].createdAt == before[k].createdAt
    ensures CreatedInDay(after, owner, lo) == CreatedInDay(before, owner, lo)
    ensures CreatedSince(after, owner, lo) == CreatedSince(before, owner, lo)
  {}

  lemma DayWithinWindow(workspaces: seq<Workspace>, owner: Principal, lo: int, since: int)
    requires since <= lo
    ensures CreatedInDay(workspaces, owner, lo) <= CreatedSince(workspaces, owner, since)
  {}

  /** The look-back of one window is enough: whatever the clock did, every
      24-hour interval that sees the new workspace starts inside that window. */
  lemma CreatingStaysLimited(workspaces: seq<Workspace>, w: Workspace)
    requires CreationsAreLimited(workspaces)
    requires CreatedSince(workspaces, w.owner, w.createdAt - CREATION_WINDOW_MS) < MAX_CREATIONS_PER_WINDOW
    ensures CreationsAreLimited(workspaces + [w])
  {
    forall owner, lo
      ensures CreatedInDay(workspaces + [w], owner, lo) <= MAX_CREATIONS_PER_WINDOW
    {
      assert (workspaces + [w])[..|workspaces|] == workspaces;
      assert CreatedInDay(workspaces, owner, lo) <= MAX_CREATIONS_PER_WINDOW;
      if owner == w.owner && lo <= w.createdAt <= lo + CREATION_WINDOW_MS {
        DayWithinWindow(workspaces, owner, lo, w.createdAt - CREATION_WINDOW_MS);
      }
    }
  }

  // ------------------------------------------------------- what each table op keeps

  /** The row a deploy is about to append fits the rows that will be there. */
  lemma AppendingKeepsRows(
    rows: seq<Deployment>, row: Deployment, proxies: map<string, Proxy>,
    environments: map<string, Environment>, workspaces: seq<Workspace>)
    requires Rooted(rows, proxies, environments, workspaces) && SlotsAreUnique(rows) && PathsAreUnique(rows, proxies)
    requires LabRowsAreOpen(rows, workspaces)
    requires RowIsRooted(row, proxies, environments, workspaces)
    requires row.workspace.Some? ==> workspaces[row.workspace.value].status.Open?
    requires forall k :: 0 <= k < |rows| && rows[k].status.Active? ==>
               rows[k].proxy != row.proxy || rows[k].environment != row.environment
    requires forall k :: 0 <= k < |rows| && rows[k].status.Active?
               && rows[k].environment == row.environment && rows[k].workspace == row.workspace
               ==> BasePathOf(proxies, rows[k]) != BasePathOf(proxies, row)
    ensures Rooted(rows + [row], proxies, environments, workspaces) && SlotsAreUnique(rows + [row])
    ensures PathsAreUnique(rows + [row], proxies)
    ensures LabRowsAreOpen(rows + [row], workspaces)
  {}

  lemma AppendingKeepsPromotions(rows: seq<Deployment>, row: Deployment, environments: map<string, Environment>)
    requires Promoted(rows, environments)
    requires row.environment in environments
    requires row.workspace.None? && PreviousStage(environments[row.environment].stage).Some? ==>
               exists j :: 0 <= j < |rows| && IsPromotion(environments, rows[j], row.proxy, row.revision,
                 PreviousStage(environments[row.environment].stage).value, environments[row.environment].region)
    ensures Promoted(rows + [row], environments)
  {
    var after := rows + [row];
    forall k | 0 <= k < |after| ensures IsPromoted(after, environments, k) {
      if k < |rows| {
        assert IsPromoted(rows, environments, k);
        assert forall j :: 0 <= j < k ==> after[j] == rows[j];
      } else {
        assert forall j :: 0 <= j < |rows| ==> after[j] == rows[j];
      }
    }
  }

  lemma LiveGrows(audit: seq<AuditEvent>, e: AuditEvent)
    ensures (audit + [e])[..|audit|] == audit && (audit + [e])[|audit|] == e
  {}

  /** The rows left once a deploy has retired the one it replaces. */
  function Kept(db: Db, plan: DeployPlan): seq<Deployment>
    requires plan.previous.Some? ==> plan.previous.value < |db.rows|
  {
    if plan.previous.Some? then RetireRow(db.rows, plan.previous.value) else db.rows
  }

  function NewRow(i: DeployInput, plan: DeployPlan): Deployment {
    Deployment(i.proxy, i.revision, i.environment, i.workspace, plan.upstream, Active)
  }

  /** After the replaced row is retired, nothing active stands in the new row's way. */
  lemma PlanClearsTheWay(db: Db, i: DeployInput, now: int)
    requires SlotsAreUnique(db.rows) && PlanDeploy(db, i, now).Ok?
    ensures var plan := PlanDeploy(db, i, now).value;
            var kept := Kept(db, plan);
            && RowsEvolve(db.rows, kept) && |kept| == |db.rows|
            && (forall k :: 0 <= k < |kept| && kept[k].status.Active? ==>
                  kept[k].proxy != i.proxy || kept[k].environment != i.environment)
            && (forall k :: 0 <= k < |kept| && kept[k].status.Active?
                  && kept[k].environment == i.environment && kept[k].workspace == i.workspace
                  ==> BasePathOf(db.proxies, kept[k]) != BasePathOf(db.proxies, NewRow(i, plan)))
  {}

  lemma DeployKeepsInv(parse: Parser, db: Db, i: DeployInput, now: int, version: nat)
    requires Inv(parse, db)
    ensures Inv(parse, Deploy(db, i, now, version).db)
  {
    if PlanDeploy(db, i, now).Ok? {
      var plan := PlanDeploy(db, i, now).value;
      var kept, row := Kept(db, plan), NewRow(i, plan);
      PlanClearsTheWay(db, i, now);
      RetiringKeepsRows(db.rows, kept, db.proxies, db.environments, db.workspaces);
      RetiringKeepsPromotions(db.rows, kept, db.environments);
      AppendingKeepsRows(kept, row, db.proxies, db.environments, db.workspaces);
      if i.workspace.None? && PreviousStage(db.environments[i.environment].stage).Some? {
        PromotionSurvives(db, i, now);
      }
      AppendingKeepsPromotions(kept, row, db.environments);
      DeployIsAudited(db, i, now, version);
    }
  }

  lemma PromotionSurvives(db: Db, i: DeployInput, now: int)
    requires PlanDeploy(db, i, now).Ok? && i.workspace.None?
    requires PreviousStage(db.environments[i.environment].stage).Some?
    ensures var kept := Kept(db, PlanDeploy(db, i, now).value);
            exists j :: 0 <= j < |kept| && IsPromotion(db.environments, kept[j], i.proxy, i.revision,
              PreviousStage(db.environments[i.environment].stage).value, db.environments[i.environment].region)
  {
    var stage, region := PreviousStage(db.environments[i.environment].stage).value, db.environments[i.environment].region;
    assert HasPromotion(db, i, stage, region);
    var j :| 0 <= j < |db.rows| && IsPromotion(db.environments, db.rows[j], i.proxy, i.revision, stage, region);
    assert IsPromotion(db.environments, Kept(db, PlanDeploy(db, i, now).value)[j], i.proxy, i.revision, stage, region);
  }

  lemma DeployIsAudited(db: Db, i: DeployInput, now: int, version: nat)
    requires PlanDeploy(db, i, now).Ok? && Live(db.audit) == ActiveIds(db.rows)
    ensures Live(Deploy(db, i, now, version).db.audit) == ActiveIds(Deploy(db, i, now, version).db.rows)
  {
    var plan := PlanDeploy(db, i, now).value;
    LiveGrows(db.audit, DeployAudit(|db.rows|, plan.previous, plan.rollback));
  }

  lemma RetireKeepsInv(parse: Parser, db: Db, id: nat, version: nat)
    requires Inv(parse, db) && id < |db.rows| && db.rows[id].status.Active?
    ensures Inv(parse, CommitRetire(db, id, version).db)
  {
    var after := CommitRetire(db, id, version).db;
    RetiringKeepsRows(db.rows, after.rows, db.proxies, db.environments, db.workspaces);
    RetiringKeepsPromotions(db.rows, after.rows, db.environments);
    LiveGrows(db.audit, RetireAudit(id));
  }

  /** An edit of the proxy table that leaves rows and workspaces alone. */
  lemma ProxyEditKeepsInv(parse: Parser, db: Db, after: Db, action: string)
    requires Inv(parse, db) && ProxiesEvolve(db.proxies, after.proxies) && OrgsEvolve(db.orgs, after.orgs)
    requires ProxiesAreHomed(parse, after.proxies, after.orgs)
    requires after.rows == db.rows && after.workspaces == db.workspaces && after.environments == db.environments
    requires after.audit == db.audit || after.audit == db.audit + [OtherAudit(action)]
    ensures Inv(parse, after)
  {
    ProxyEditsKeepRows(db.rows, db.proxies, after.proxies, db.environments, db.workspaces);
    LiveGrows(db.audit, OtherAudit(action));
  }

  lemma OneProxyEdited(parse: Parser, proxies: map<string, Proxy>, orgs: map<string, OrgKind>, id: string, p: Proxy)
    requires ProxiesAreHomed(parse, proxies, orgs) && p.org in orgs && RevisionsAreCompiled(parse, p)
    requires id in proxies ==> ProxyEvolves(proxies[id], p)
    ensures ProxiesAreHomed(parse, proxies[id := p], orgs) && ProxiesEvolve(proxies, proxies[id := p])
  {}

  lemma CreateOrganizationKeepsInv(parse: Parser, db: Db, org: string)
    requires Inv(parse, db)
    ensures Inv(parse, CreateOrganization(db, org).db)
  {
    ProxyEditKeepsInv(parse, db, CreateOrganization(db, org).db, "organization.create");
  }

  lemma CreateProxyKeepsInv(parse: Parser, db: Db, id: string, name: string, org: string, systemManaged: bool)
    requires Inv(parse, db)
    ensures Inv(parse, CreateProxy(db, id, name, org, systemManaged).db)
  {
    var after := CreateProxy(db, id, name, org, systemManaged).db;
    if after != db {
      OneProxyEdited(parse, db.proxies, db.orgs, id, Proxy(name, true, systemManaged, org, []));
      ProxyEditKeepsInv(parse, db, after, "proxy.create");
    }
  }

  function WithRevision(p: Proxy, bundle: CompiledBundle): Proxy {
    p.(revisions := p.revisions + [Revision(bundle.basePath, bundle.operations)])
  }

  lemma ImportedRevisionIsCompiled(
    parse: Parser, p: Proxy, bundle: CompiledBundle, apis: seq<ApiOperation>, gateway: seq<(string, Json)>)
    requires RevisionsAreCompiled(parse, p) && Compile(parse, apis, gateway, p.systemManaged) == Ok(bundle)
    ensures RevisionsAreCompiled(parse, WithRevision(p, bundle))
  {
    CompiledBundleIsWellFormed(parse, apis, gateway, p.systemManaged);
    forall k | 0 <= k < |bundle.operations| ensures WellCompiled(parse, bundle.operations[k], p.systemManaged) {
      assert bundle.operations[k] in bundle.operations;
    }
  }

  lemma ImportKeepsInv(parse: Parser, db: Db, proxy: string, bundle: CompiledBundle, allow: bool)
    requires Inv(parse, db) && IsPermitted(parse, db, OpImportRevision(proxy, bundle, allow))
    ensures Inv(parse, ImportRevision(db, proxy, bundle, allow).db)
  {
    var after := ImportRevision(db, proxy, bundle, allow).db;
    if after != db {
      var apis, gateway :| Compile(parse, apis, gateway, db.proxies[proxy].systemManaged) == Ok(bundle);
      assert RevisionsAreCompiled(parse, db.proxies[proxy]);
      ImportedRevisionIsCompiled(parse, db.proxies[proxy], bundle, apis, gateway);
      OneProxyEdited(parse, db.proxies, db.orgs, proxy, WithRevision(db.proxies[proxy], bundle));
      ProxyEditKeepsInv(parse, db, after, "proxyRevision.import");
    }
  }

  lemma UpdateProxyKeepsInv(parse: Parser, db: Db, proxy: string, name: Option<string>, active: Option<bool>, version: nat)
    requires Inv(parse, db)
    ensures Inv(parse, UpdateProxy(db, proxy, name, active, version).db)
  {
    var after := UpdateProxy(db, proxy, name, active, version).db;
    if after != db {
      assert RevisionsAreCompiled(parse, db.proxies[proxy]);
      OneProxyEdited(parse, db.proxies, db.orgs, proxy, after.proxies[proxy]);
      ProxyEditKeepsInv(parse, db, after, "proxy.update");
    }
  }

  lemma DeactivatedProxies(parse: Parser, proxies: map<string, Proxy>, orgs: map<string, OrgKind>, org: string)
    requires ProxiesAreHomed(parse, proxies, orgs)
    ensures ProxiesAreHomed(parse, DeactivateProxies(proxies, org), orgs)
    ensures ProxiesEvolve(proxies, DeactivateProxies(proxies, org))
  {}

  lemma DisableKeepsInv(parse: Parser, db: Db, w: nat, first: nat)
    requires Inv(parse, db) && w < |db.workspaces|
    ensures Inv(parse, DisableResources(db, w, first))
  {
    var after := DisableResources(db, w, first);
    DeactivatedProxies(parse, db.proxies, db.orgs, db.workspaces[w].org);
    RetiringKeepsRows(db.rows, after.rows, db.proxies, db.environments, db.workspaces);
    RetiringKeepsPromotions(db.rows, after.rows, db.environments);
    ProxyEditsKeepRows(after.rows, db.proxies, after.proxies, db.environments, db.workspaces);
    var retired := ActiveIn(db.rows, w);
    LiveGrows(db.audit, WorkspaceAudit(w, retired));
    assert Live(after.audit) == Live(db.audit) - (set id | id in retired);
  }

  /** Closing a workspace that has no active rows left. */
  lemma ClosingKeepsInv(parse: Parser, db: Db, w: nat, status: WorkspaceStatus)
    requires Inv(parse, db) && w < |db.workspaces| && db.workspaces[w].status.Open?
    requires forall k :: 0 <= k < |db.rows| ==> !IsActiveIn(db.rows[k], w)
    requires !status.Open?
    ensures Inv(parse, db.(workspaces := db.workspaces[w := db.workspaces[w].(status := status)]))
  {
    var after := db.workspaces[w := db.workspaces[w].(status := status)];
    WorkspaceEditsKeepRoots(db.rows, db.proxies, db.environments, db.workspaces, after);
    forall owner, lo ensures CreatedInDay(after, owner, lo) <= MAX_CREATIONS_PER_WINDOW {
      StatusKeepsCounts(db.workspaces, after, owner, lo);
      assert CreatedInDay(db.workspaces, owner, lo) <= MAX_CREATIONS_PER_WINDOW;
    }
    forall k | 0 <= k < |db.rows| && db.rows[k].status.Active? && db.rows[k].workspace.Some?
      ensures db.rows[k].workspace.value < |after| && after[db.rows[k].workspace.value].status.Open?
    {
      assert !IsActiveIn(db.rows[k], w);
    }
  }

  lemma DeactivateKeepsInv(parse: Parser, db: Db, w: nat, status: WorkspaceStatus, first: nat)
    requires Inv(parse, db) && w < |db.workspaces| && db.workspaces[w].status.Open? && !status.Open?
    ensures Inv(parse, Deactivate(db, w, status, first))
  {
    DisableKeepsInv(parse, db, w, first);
    NoneActiveAfterRetiring(db.rows, w);
    var disabled := DisableResources(db, w, first);
    assert disabled.workspaces == db.workspaces && disabled.rows == RetireAllIn(db.rows, w);
    ClosingKeepsInv(parse, disabled, w, status);
  }

  lemma NoneActiveAfterRetiring(rows: seq<Deployment>, w: nat)
    ensures forall k :: 0 <= k < |RetireAllIn(rows, w)| ==> !IsActiveIn(RetireAllIn(rows, w)[k], w)
  {}

  /** Appending a workspace whose owner has none open and who is below the limit. */
  lemma OpeningKeepsInv(parse: Parser, db: Db, w: Workspace)
    requires Inv(parse, db) && w.org !in db.orgs && w.status.Open?
    requires OpenWorkspace(db.workspaces, w.owner).None?
    requires CreatedSince(db.workspaces, w.owner, w.createdAt - CREATION_WINDOW_MS) < MAX_CREATIONS_PER_WINDOW
    ensures Inv(parse, db.(orgs := db.orgs[w.org := LabOrg],
                           workspaces := db.workspaces + [w],
                           audit := db.audit + [OtherAudit("labWorkspace.create")]))
  {
    WorkspaceEditsKeepRoots(db.rows, db.proxies, db.environments, db.workspaces, db.workspaces + [w]);
    CreatingStaysLimited(db.workspaces, w);
    LiveGrows(db.audit, OtherAudit("labWorkspace.create"));
    assert forall k :: 0 <= k < |db.workspaces| ==> !Owns(db.workspaces[k], w.owner);
  }

  lemma NoneOpenAfterClosing(workspaces: seq<Workspace>, orgs: map<string, OrgKind>, w: nat, status: WorkspaceStatus)
    requires WorkspacesAreOwned(workspaces, orgs) && w < |workspaces| && workspaces[w].status.Open? && !status.Open?
    ensures OpenWorkspace(workspaces[w := workspaces[w].(status := status)], workspaces[w].owner).None?
  {}

  lemma CreateWorkspaceKeepsInv(parse: Parser, db: Db, owner: Principal, org: string, now: int, first: nat)
    requires Inv(parse, db) && org !in db.orgs
    ensures Inv(parse, CreateWorkspace(db, owner, org, now, first).db)
  {
    var current := OpenWorkspace(db.workspaces, owner);
    if CreateWorkspace(db, owner, org, now, first).db != db {
      var cleared := if current.Some? then Deactivate(db, current.value, Expired, first) else db;
      if current.Some? {
        DeactivateKeepsInv(parse, db, current.value, Expired, first);
        NoneOpenAfterClosing(db.workspaces, db.orgs, current.value, Expired);
      }
      OpeningKeepsInv(parse, cleared, Workspace(owner, org, Open, now, now + WORKSPACE_TTL_MS));
    }
  }

  lemma ExpireKeepsInv(parse: Parser, db: Db, w: nat, first: nat)
    requires Inv(parse, db)
    ensures Inv(parse, ExpireWorkspace(db, w, first))
  {
    if w < |db.workspaces| && db.workspaces[w].status.Open? {
      DeactivateKeepsInv(parse, db, w, Expired, first);
    }
  }

  lemma GetWorkspaceKeepsInv(parse: Parser, db: Db, owner: Principal, now: int, first: nat)
    requires Inv(parse, db)
    ensures Inv(parse, GetWorkspace(db, owner, now, first).db)
  {
    var w := OpenWorkspace(db.workspaces, owner);
    if w.Some? { ExpireKeepsInv(parse, db, w.value, first); }
  }

  lemma RevokeWorkspaceKeepsInv(parse: Parser, db: Db, owner: Principal, first: nat)
    requires Inv(parse, db)
    ensures Inv(parse, RevokeWorkspace(db, owner, first).db)
  {
    var w := OpenWorkspace(db.workspaces, owner);
    if w.Some? { DeactivateKeepsInv(parse, db, w.value, Revoked, first); }
  }

  lemma ResetWorkspaceKeepsInv(parse: Parser, db: Db, owner: Principal, now: int, first: nat)
    requires Inv(parse, db)
    ensures Inv(parse, ResetWorkspace(db, owner, now, first).db)
  {
    var w := OpenWorkspace(db.workspaces, owner);
    if w.Some? { DisableKeepsInv(parse, db, w.value, first); }
  }

  /** Every permitted transaction keeps every invariant. */
  lemma StepKeepsInv(parse: Parser, db: Db, op: Op, first: nat)
    requires Inv(parse, db) && IsPermitted(parse, db, op)
    ensures Inv(parse, Execute(db, op, first).db)
  {
    match op
    case OpCreateOrganization(org) => CreateOrganizationKeepsInv(parse, db, org);
    case OpCreateProxy(proxy, name, org, systemManaged) => CreateProxyKeepsInv(parse, db, proxy, name, org, systemManaged);
    case OpImportRevision(proxy, bundle, allow) => ImportKeepsInv(parse, db, proxy, bundle, allow);
    case OpUpdateProxy(proxy, name, active) => UpdateProxyKeepsInv(parse, db, proxy, name, active, first);
    case OpDeploy(input, now) => DeployKeepsInv(parse, db, input, now, first);
    case OpRetire(id, allow) => if PlanRetire(db, id, allow).Ok? { RetireKeepsInv(parse, db, id, first); }
    case OpCreateWorkspace(owner, org, now) => CreateWorkspaceKeepsInv(parse, db, owner, org, now, first);
    case OpGetWorkspace(owner, now) => GetWorkspaceKeepsInv(parse, db, owner, now, first);
    case OpRevokeWorkspace(owner) => RevokeWorkspaceKeepsInv(parse, db, owner, first);
    case OpResetWorkspace(owner, now) => ResetWorkspaceKeepsInv(parse, db, owner, now, first);
    case OpExpireWorkspace(w) => ExpireKeepsInv(parse, db, w, first);
  }

  lemma SeedHasInv(parse: Parser, db: Db)
    requires IsSeed(db)
    ensures Inv(parse, db)
  {}

  /** Every run from the seeded database keeps every invariant. */
  lemma {:induction false} RunKeepsInv(parse: Parser, db: Db, steps: seq<Step>)
    requires IsSeed(db) && RunIsPermitted(parse, db, steps)
    ensures Inv(parse, Run(db, steps))
    decreases |steps|
  {
    if steps == [] {
      SeedHasInv(parse, db);
    } else {
      RunKeepsInv(parse, db, steps[..|steps| - 1]);
      StepKeepsInv(parse, Run(db, steps[..|steps| - 1]), steps[|steps| - 1].op, steps[|steps| - 1].first);
    }
  }

  // ------------------------------------------------------------------ evolution

  lemma EvolvesTransitively(a: Db, b: Db, c: Db)
    requires Evolves(a, b) && Evolves(b, c)
    ensures Evolves(a, c)
  {}

  lemma DisableEvolves(db: Db, w: nat, first: nat)
    requires w < |db.workspaces|
    ensures Evolves(db, DisableResources(db, w, first))
  {}

  lemma DeactivateEvolves(db: Db, w: nat, status: WorkspaceStatus, first: nat)
    requires w < |db.workspaces| && db.workspaces[w].status.Open?
    ensures Evolves(db, Deactivate(db, w, status, first))
  {}

  lemma DeployEvolves(db: Db, i: DeployInput, now: int, version: nat)
    ensures Evolves(db, Deploy(db, i, now, version).db)
  {}

  lemma RetireEvolves(db: Db, id: nat, allow: bool, version: nat)
    ensures Evolves(db, Retire(db, id, allow, version).db)
  {}

  lemma CreateOrganizationEvolves(db: Db, org: string)
    ensures Evolves(db, CreateOrganization(db, org).db)
  {}

  lemma CreateProxyEvolves(db: Db, id: string, name: string, org: string, systemManaged: bool)
    ensures Evolves(db, CreateProxy(db, id, name, org, systemManaged).db)
  {}

  lemma ImportEvolves(db: Db, proxy: string, bundle: CompiledBundle, allow: bool)
    ensures Evolves(db, ImportRevision(db, proxy, bundle, allow).db)
  {}

  lemma UpdateProxyEvolves(db: Db, proxy: string, name: Option<string>, active: Option<bool>, version: nat)
    ensures Evolves(db, UpdateProxy(db, proxy, name, active, version).db)
  {}

  lemma CreateWorkspaceEvolves(db: Db, owner: Principal, org: string, now: int, first: nat)
    requires org !in db.orgs
    ensures Evolves(db, CreateWorkspace(db, owner, org, now, first).db)
  {
    var current := OpenWorkspace(db.workspaces, owner);
    if current.Some? {
      DeactivateEvolves(db, current.value, Expired, first);
    }
  }

  lemma ExpireEvolves(db: Db, w: nat, first: nat)
    ensures Evolves(db, ExpireWorkspace(db, w, first))
  {
    if w < |db.workspaces| && db.workspaces[w].status.Open? {
      DeactivateEvolves(db, w, Expired, first);
    }
  }

  lemma RevokeEvolves(db: Db, owner: Principal, first: nat)
    ensures Evolves(db, RevokeWorkspace(db, owner, first).db)
  {
    var w := OpenWorkspace(db.workspaces, owner);
    if w.Some? { DeactivateEvolves(db, w.value, Revoked, first); }
  }

  lemma ResetEvolves(db: Db, owner: Principal, now: int, first: nat)
    ensures Evolves(db, ResetWorkspace(db, owner, now, first).db)
  {
    var w := OpenWorkspace(db.workspaces, owner);
    if w.Some? { DisableEvolves(db, w.value, first); }
  }

  lemma GetEvolves(db: Db, owner: Principal, now: int, first: nat)
    ensures Evolves(db, GetWorkspace(db, owner, now, first).db)
  {
    var w := OpenWorkspace(db.workspaces, owner);
    if w.Some? { ExpireEvolves(db, w.value, first); }
  }

  /** Every permitted transaction, committed or rolled back, only moves forward. */
  lemma StepEvolves(parse: Parser, db: Db, op: Op, first: nat)
    requires IsPermitted(parse, db, op)
    ensures Evolves(db, Execute(db, op, first).db)
  {
    match op
    case OpCreateOrganization(org) => CreateOrganizationEvolves(db, org);
    case OpCreateProxy(proxy, name, org, systemManaged) => CreateProxyEvolves(db, proxy, name, org, systemManaged);
    case OpImportRevision(proxy, bundle, allow) => ImportEvolves(db, proxy, bundle, allow);
    case OpUpdateProxy(proxy, name, active) => UpdateProxyEvolves(db, proxy, name, active, first);
    case OpDeploy(input, now) => DeployEvolves(db, input, now, first);
    case OpRetire(id, allow) => RetireEvolves(db, id, allow, first);
    case OpCreateWorkspace(owner, org, now) => CreateWorkspaceEvolves(db, owner, org, now, first);
    case OpGetWorkspace(owner, now) => GetEvolves(db, owner, now, first);
    case OpRevokeWorkspace(owner) => RevokeEvolves(db, owner, first);
    case OpResetWorkspace(owner, now) => ResetEvolves(db, owner, now, first);
    case OpExpireWorkspace(w) => ExpireEvolves(db, w, first);
  }

  /** Over any stretch of a run nothing is deleted, a retired row never becomes
      active again, and a closed workspace never reopens. */
  lemma {:induction false} RunEvolves(parse: Parser, db: Db, steps: seq<Step>, from: nat)
    requires RunIsPermitted(parse, db, steps) && from <= |steps|
    ensures Evolves(Run(db, steps[..from]), Run(db, steps))
    decreases |steps|
  {
    if from == |steps| {
      assert steps[..from] == steps;
    } else {
      var front, last := steps[..|steps| - 1], steps[|steps| - 1];
      assert front[..from] == steps[..from];
      RunEvolves(parse, db, front, from);
      StepEvolves(parse, Run(db, front), last.op, last.first);
      EvolvesTransitively(Run(db, steps[..from]), Run(db, front), Run(db, steps));
    }
  }
}
