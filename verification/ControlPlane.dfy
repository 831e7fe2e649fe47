/** The control plane as the code runs it: tables updated in place, a version
    sequence that no rollback rewinds, and throws that undo everything else. */
module ControlPlane {
  import opened Schema
  import opened Seqs
  import opened Bundle
  import opened Ledger
  import opened LedgerInvariants

  predicate IsDue(w: Workspace, now: int) {
    w.status.Open? && w.expiresAt <= now
  }

  /** The ids of the open workspaces that are overdue. */
  function Due(workspaces: seq<Workspace>, now: int): (ids: seq<nat>)
    ensures forall id: nat :: id in ids <==> id < |workspaces| && IsDue(workspaces[id], now)
  {
    if workspaces == [] then []
    else
      var last := |workspaces| - 1;
      Due(workspaces[..last], now) + if IsDue(workspaces[last], now) then [last] else []
  }

  function ClosedIn(w: Workspace, closed: bool): Workspace {
    if closed && w.status.Open? then w.(status := Expired) else w
  }

  function RetiredIn(row: Deployment, closed: bool): Deployment {
    if closed then row.(status := Retired) else row
  }

  /** Exactly the given workspaces have been closed and their rows retired. */
  ghost predicate Swept(before: Db, after: Db, due: set<nat>) {
    && |after.workspaces| == |before.workspaces| && |after.rows| == |before.rows| && |after.changes| >= |before.changes|
    && (forall w: nat :: w < |before.workspaces| ==> after.workspaces[w] == ClosedIn(before.workspaces[w], w in due))
    && (forall k: nat :: k < |before.rows| ==>
          after.rows[k] == RetiredIn(before.rows[k], before.rows[k].workspace.Some? && before.rows[k].workspace.value in due))
  }

  lemma SweepOne(db: Db, w: nat, first: nat)
    requires LabRowsAreOpen(db.rows, db.workspaces)
    ensures Swept(db, ExpireWorkspace(db, w, first), {w})
    ensures LabRowsAreOpen(ExpireWorkspace(db, w, first).rows, ExpireWorkspace(db, w, first).workspaces)
  {}

  lemma SweepMore(a: Db, b: Db, c: Db, due: set<nat>, w: nat)
    requires Swept(a, b, due) && Swept(b, c, {w})
    ensures Swept(a, c, due + {w})
  {}

  lemma NothingLeftDue(before: Db, after: Db, now: int)
    requires Swept(before, after, Ids(Due(before.workspaces, now)))
    ensures Due(after.workspaces, now) == []
  {
    assert Due(after.workspaces, now) == [] || Due(after.workspaces, now)[0] in Due(after.workspaces, now);
    forall w: nat | w < |after.workspaces| ensures !IsDue(after.workspaces[w], now) {
      assert IsDue(before.workspaces[w], now) <==> w in Due(before.workspaces, now);
    }
  }

  ghost function Ids(due: seq<nat>): set<nat> {
    set id | id in due
  }

  lemma NothingIsSwept(db: Db)
    ensures Swept(db, db, Ids([]))
  {}

  lemma NextOfSweep(found: Db, before: Db, due: seq<nat>, i: nat, first: nat)
    requires i < |due| && Swept(found, before, Ids(due[..i])) && LabRowsAreOpen(before.rows, before.workspaces)
    ensures var after := ExpireWorkspace(before, due[i], first);
            Swept(found, after, Ids(due[..i + 1])) && LabRowsAreOpen(after.rows, after.workspaces)
  {
    SweepOne(before, due[i], first);
    SweepMore(found, before, ExpireWorkspace(before, due[i], first), Ids(due[..i]), due[i]);
    assert Ids(due[..i + 1]) == Ids(due[..i]) + {due[i]};
  }

  class ControlPlane {
    var orgs: map<string, OrgKind>
    const environments: map<string, Environment>
    var proxies: map<string, Proxy>
    var rows: seq<Deployment>
    var workspaces: seq<Workspace>
    var changes: seq<Change>
    var audit: seq<AuditEvent>
    var sequence: nat

    function State(): Db
      reads this
    {
      Db(orgs, environments, proxies, rows, workspaces, changes, audit)
    }

    /** The unique index over active rows holds, and no recorded version is ahead of the sequence. */
    ghost predicate Valid()
      reads this
    {
      && SlotsAreUnique(rows)
      && forall c :: c in changes ==> c.version <= sequence
    }

    constructor (seeded: map<string, Environment>)
      ensures Valid() && IsSeed(State()) && State().environments == seeded && sequence == 0
    {
      orgs, environments, proxies, rows := map[], seeded, map[], [];
      workspaces, changes, audit, sequence := [], [], [], 0;
    }

    /** A throw: the tables go back to what the transaction found; the sequence does not. */
    method Rollback(found: Db)
      requires found.environments == environments
      modifies this
      ensures State() == found && sequence == old(sequence)
    {
      orgs, proxies, rows, workspaces := found.orgs, found.proxies, found.rows, found.workspaces;
      changes, audit := found.changes, found.audit;
    }

    /** `recordGatewayConfigChange`: the version is the next of the sequence. */
    method RecordGatewayConfigChange(kind: ChangeKind) returns (version: nat)
      modifies `changes, `sequence
      ensures version == old(sequence) + 1 && sequence == version
      ensures changes == old(changes) + [Change(version, kind)]
    {
      sequence := sequence + 1;
      version := sequence;
      changes := changes + [Change(version, kind)];
    }

    /** `getLatestGatewayConfigVersion`. */
    method GetLatestGatewayConfigVersion() returns (latest: nat)
      ensures forall c :: c in changes ==> c.version <= latest
      ensures latest == 0 || latest in Versions(State())
    {
      latest := 0;
      for i := 0 to |changes|
        invariant forall k :: 0 <= k < i ==> changes[k].version <= latest
        invariant latest == 0 || exists k :: 0 <= k < i && changes[k].version == latest
      {
        if changes[i].version > latest { latest := changes[i].version; }
      }
    }

    /** The reads of `deployProxyRevision` up to its first write: the normalized
        upstream, or the first refusal. */
    method CheckDeployment(input: DeployInput, now: int) returns (r: Result<Option<string>, LedgerError>)
      ensures r.Err? ==> PlanDeploy(State(), input, now) == Err(r.error)
      ensures r.Ok? ==>
                var previous := FindActive(rows, input.proxy, input.environment, input.workspace);
                PlanDeploy(State(), input, now)
                == if BreaksUniqueIndex(State(), input) then Err(UniqueViolation)
                   else Ok(DeployPlan(r.value, previous, previous.Some? && input.revision < rows[previous.value].revision))
    {
      var upstream := NormalizeUpstream(input.upstream);
      if upstream.Err? { return Err(upstream.error); }
      if input.proxy !in proxies { return Err(ProxyNotFound); }
      if proxies[input.proxy].systemManaged && !input.allowSystemManaged { return Err(SystemProxyImmutable); }
      if !HasRevision(proxies, input.proxy, input.revision) { return Err(RevisionNotFound); }
      var revision := RevisionOf(proxies, input.proxy, input.revision);
      if input.environment !in environments { return Err(EnvironmentNotFound); }
      var environment := environments[input.environment];
      if input.workspace.Some? && !LabDeploymentIsValid(State(), input, now) { return Err(LabWorkspaceInvalid); }
      if !UpstreamSuffices(revision.operations, upstream.value) { return Err(UpstreamRequired); }
      var requiredStage := if input.workspace.Some? then None else PreviousStage(environment.stage);
      if requiredStage.Some? && !HasPromotion(State(), input, requiredStage.value, environment.region) {
        return Err(PromotionRequired);
      }
      if HasConflict(State(), input, revision.basePath) { return Err(DeploymentConflict); }
      r := Ok(upstream.value);
    }

    method DeployProxyRevision(input: DeployInput, now: int) returns (reply: Result<Reply, LedgerError>)
      requires Valid()
      modifies this
      ensures Valid()
      ensures Outcome(State(), reply) == Deploy(old(State()), input, now, old(sequence) + 1)
      ensures sequence == old(sequence) + if reply.Ok? then 1 else 0
    {
      var upstream := CheckDeployment(input, now);
      if upstream.Err? { return Err(upstream.error); }
      var previous := FindActive(rows, input.proxy, input.environment, input.workspace);
      var found := State();
      if previous.Some? {
        RetiringKeepsSlots(rows, previous.value);
        rows := RetireRow(rows, previous.value);
      }
      IndexAgrees(found, input, rows);
      if IndexRefuses(rows, input.proxy, input.environment) {
        Rollback(found);
        return Err(UniqueViolation);
      }
      var id := |rows|;
      var deployment := Deployment(input.proxy, input.revision, input.environment, input.workspace, upstream.value, Active);
      AdmittedKeepsSlots(rows, deployment);
      rows := rows + [deployment];
      var rollback := previous.Some? && input.revision < found.rows[previous.value].revision;
      audit := audit + [DeployAudit(id, previous, rollback)];
      var version := RecordGatewayConfigChange(
        if rollback then DeploymentRolledBack else if previous.Some? then DeploymentReplaced else DeploymentCreated);
      reply := Ok(Deployed(id, version));
    }

    method RetireProxyDeployment(id: nat, allowSystemManaged: bool) returns (reply: Result<Reply, LedgerError>)
      requires Valid()
      modifies this
      ensures Valid()
      ensures Outcome(State(), reply) == Retire(old(State()), id, allowSystemManaged, old(sequence) + 1)
      ensures sequence == old(sequence) + if reply.Ok? then 1 else 0
    {
      if id >= |rows| || !rows[id].status.Active? { return Err(ActiveDeploymentNotFound); }
      if rows[id].proxy in proxies && proxies[rows[id].proxy].systemManaged && !allowSystemManaged {
        return Err(SystemProxyImmutable);
      }
      rows := RetireRow(rows, id);
      audit := audit + [RetireAudit(id)];
      var version := RecordGatewayConfigChange(DeploymentRetired);
      reply := Ok(Deployed(id, version));
    }

    /** `importProxyRevision`, given the compiled bundle: the next number is the count so far plus one. */
    method ImportProxyRevision(proxy: string, bundle: CompiledBundle, allowSystemManaged: bool)
      returns (reply: Result<Reply, LedgerError>)
      requires Valid()
      modifies this
      ensures Valid()
      ensures Outcome(State(), reply) == ImportRevision(old(State()), proxy, bundle, allowSystemManaged)
      ensures reply.Ok? ==> HasRevision(proxies, proxy, |old(proxies)[proxy].revisions| + 1)
    {
      if proxy !in proxies { return Err(ProxyNotFound); }
      var current := proxies[proxy];
      if current.systemManaged && !allowSystemManaged { return Err(SystemProxyImmutable); }
      var revision := Revision(bundle.basePath, bundle.operations);
      proxies := proxies[proxy := current.(revisions := current.revisions + [revision])];
      audit := audit + [OtherAudit("proxyRevision.import")];
      reply := Ok(Done);
    }

    /** `updateApiProxy`, given the name already trimmed. */
    method UpdateApiProxy(proxy: string, name: Option<string>, active: Option<bool>)
      returns (reply: Result<Reply, LedgerError>)
      requires Valid()
      modifies this
      ensures Valid()
      ensures Outcome(State(), reply) == UpdateProxy(old(State()), proxy, name, active, old(sequence) + 1)
    {
      if name.Some? && (name.value == "" || |name.value| > 120) { return Err(InvalidName); }
      if proxy !in proxies { return Err(ProxyNotFound); }
      var current := proxies[proxy];
      if current.systemManaged { return Err(SystemProxyImmutable); }
      var updated := current;
      if name.Some? { updated := updated.(name := name.value); }
      if active.Some? { updated := updated.(active := active.value); }
      proxies := proxies[proxy := updated];
      audit := audit + [OtherAudit("proxy.update")];
      if active.Some? && active.value != current.active {
        var _ := RecordGatewayConfigChange(if updated.active then ProxyActivated else ProxyDeactivated);
      }
      reply := Ok(Done);
    }

    /** The loop over a workspace's retired rows. */
    method RecordRemovals(n: nat)
      modifies `changes, `sequence
      ensures sequence == old(sequence) + n
      ensures changes == old(changes) + RemovalChanges(n, old(sequence) + 1)
    {
      var i := 0;
      while i < n
        invariant 0 <= i <= n && sequence == old(sequence) + i
        invariant changes == old(changes) + RemovalChanges(i, old(sequence) + 1)
      {
        var _ := RecordGatewayConfigChange(RoutesRemoved);
        i := i + 1;
      }
    }

    /** `disableWorkspaceResources`: one change per retired row. */
    method DisableWorkspaceResources(workspace: nat)
      requires Valid() && workspace < |workspaces|
      modifies this
      ensures Valid()
      ensures State() == DisableResources(old(State()), workspace, old(sequence) + 1)
      ensures sequence == old(sequence) + |ActiveIn(old(rows), workspace)|
    {
      var deployments := ActiveIn(rows, workspace);
      rows := RetireAllIn(rows, workspace);
      proxies := DeactivateProxies(proxies, workspaces[workspace].org);
      RecordRemovals(|deployments|);
      audit := audit + [WorkspaceAudit(workspace, deployments)];
    }

    /** `deactivateWorkspaceResources`. */
    method DeactivateWorkspaceResources(workspace: nat, status: WorkspaceStatus)
      requires Valid() && workspace < |workspaces|
      modifies this
      ensures Valid()
      ensures State() == Deactivate(old(State()), workspace, status, old(sequence) + 1)
      ensures sequence == old(sequence) + |ActiveIn(old(rows), workspace)|
    {
      DisableWorkspaceResources(workspace);
      workspaces := workspaces[workspace := workspaces[workspace].(status := status)];
    }

    /** `createPersonalLabWorkspace`. */
    method CreatePersonalLabWorkspace(owner: Principal, org: string, now: int)
      returns (reply: Result<Reply, LedgerError>)
      requires Valid() && org !in orgs
      modifies this
      ensures Valid() && sequence >= old(sequence)
      ensures Outcome(State(), reply) == CreateWorkspace(old(State()), owner, org, now, old(sequence) + 1)
    {
      var found := State();
      var current := OpenWorkspace(workspaces, owner);
      if current.Some? && workspaces[current.value].expiresAt > now {
        return Ok(WorkspaceIs(current.value, false));
      }
      if current.Some? {
        DeactivateWorkspaceResources(current.value, Expired);
      }
      if CreatedSince(workspaces, owner, now - CREATION_WINDOW_MS) >= MAX_CREATIONS_PER_WINDOW {
        Rollback(found);
        return Err(LabLimitReached);
      }
      var id := |workspaces|;
      orgs := orgs[org := LabOrg];
      workspaces := workspaces + [Workspace(owner, org, Open, now, now + WORKSPACE_TTL_MS)];
      audit := audit + [OtherAudit("labWorkspace.create")];
      reply := Ok(WorkspaceIs(id, true));
    }

    /** `expirePersonalLabWorkspace`. */
    method ExpirePersonalLabWorkspace(workspace: nat)
      requires Valid()
      modifies this
      ensures Valid()
      ensures State() == ExpireWorkspace(old(State()), workspace, old(sequence) + 1)
      ensures |changes| >= |old(changes)| && sequence == old(sequence) + |changes| - |old(changes)|
    {
      if workspace >= |workspaces| || !workspaces[workspace].status.Open? {
        return;
      }
      DeactivateWorkspaceResources(workspace, Expired);
    }

    /** `getPersonalLabWorkspace`. */
    method GetPersonalLabWorkspace(owner: Principal, now: int) returns (reply: Result<Reply, LedgerError>)
      requires Valid()
      modifies this
      ensures Valid()
      ensures Outcome(State(), reply) == GetWorkspace(old(State()), owner, now, old(sequence) + 1)
    {
      var current := OpenWorkspace(workspaces, owner);
      if current.None? { return Err(LabResourceNotFound); }
      if workspaces[current.value].expiresAt <= now {
        ExpirePersonalLabWorkspace(current.value);
        return Err(LabExpired);
      }
      reply := Ok(WorkspaceIs(current.value, false));
    }

    /** `revokePersonalLabWorkspace`. */
    method RevokePersonalLabWorkspace(owner: Principal) returns (reply: Result<Reply, LedgerError>)
      requires Valid()
      modifies this
      ensures Valid()
      ensures Outcome(State(), reply) == RevokeWorkspace(old(State()), owner, old(sequence) + 1)
    {
      var current := OpenWorkspace(workspaces, owner);
      if current.None? { return Err(LabResourceNotFound); }
      DeactivateWorkspaceResources(current.value, Revoked);
      reply := Ok(WorkspaceIs(current.value, false));
    }

    /** `resetPersonalLabWorkspace`: the expiry of an overdue workspace is written
        inside the transaction that the throw then undoes. */
    method ResetPersonalLabWorkspace(owner: Principal, now: int) returns (reply: Result<Reply, LedgerError>)
      requires Valid()
      modifies this
      ensures Valid()
      ensures Outcome(State(), reply) == ResetWorkspace(old(State()), owner, now, old(sequence) + 1)
    {
      var current := OpenWorkspace(workspaces, owner);
      if current.None? { return Err(LabResourceNotFound); }
      if workspaces[current.value].expiresAt <= now {
        var found := State();
        DeactivateWorkspaceResources(current.value, Expired);
        Rollback(found);
        return Err(LabExpired);
      }
      DisableWorkspaceResources(current.value);
      reply := Ok(WorkspaceIs(current.value, false));
    }

    /** `expireDueLabWorkspaces`. */
    method ExpireDueLabWorkspaces(now: int) returns (count: nat)
      requires Valid() && LabRowsAreOpen(rows, workspaces)
      modifies this
      ensures Valid()
      ensures count == |Due(old(workspaces), now)|
      ensures Swept(old(State()), State(), Ids(Due(old(workspaces), now)))
      ensures Due(workspaces, now) == []
    {
      var due := Due(workspaces, now);
      ghost var found := State();
      NothingIsSwept(found);
      var i := 0;
      while i < |due|
        invariant 0 <= i <= |due| && Valid()
        invariant Swept(found, State(), Ids(due[..i])) && LabRowsAreOpen(rows, workspaces)
      {
        NextOfSweep(found, State(), due, i, sequence + 1);
        ExpirePersonalLabWorkspace(due[i]);
        i := i + 1;
      }
      assert due[..i] == due;
      NothingLeftDue(found, State(), now);
      count := |due|;
    }
  }

  /** The partial unique index on (proxy, environment) over active rows. */
  predicate IndexRefuses(rows: seq<Deployment>, proxy: string, environment: string) {
    exists k :: 0 <= k < |rows| && rows[k].status.Active? && rows[k].proxy == proxy && rows[k].environment == environment
  }

  lemma RetiringKeepsSlots(rows: seq<Deployment>, id: nat)
    requires SlotsAreUnique(rows) && id < |rows|
    ensures SlotsAreUnique(RetireRow(rows, id))
  {}

  lemma AdmittedKeepsSlots(rows: seq<Deployment>, row: Deployment)
    requires SlotsAreUnique(rows) && !IndexRefuses(rows, row.proxy, row.environment)
    ensures SlotsAreUnique(rows + [row])
  {}

  /** Once the slot's own row is retired, the index refuses exactly when another scope holds the pair. */
  lemma IndexAgrees(db: Db, i: DeployInput, rows: seq<Deployment>)
    requires SlotsAreUnique(db.rows)
    requires var previous := FindActive(db.rows, i.proxy, i.environment, i.workspace);
             rows == if previous.Some? then RetireRow(db.rows, previous.value) else db.rows
    ensures IndexRefuses(rows, i.proxy, i.environment) <==> BreaksUniqueIndex(db, i)
  {}
}
