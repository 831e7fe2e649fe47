/** The version log covers the loader's view: nothing routing depends on changes
    without a new version, except the clock. */
module Coherence {
  import opened Schema
  import opened Bundle
  import opened Ledger
  import opened LedgerInvariants
  import opened Loader

  lemma InvJoins(parse: Parser, db: Db)
    requires Inv(parse, db)
    ensures Joins(db)
  {}

  lemma UntouchedIsCoherent(parse: Parser, before: Db, after: Db)
    requires Inv(parse, before) && Inv(parse, after) && Evolves(before, after) && after.rows == before.rows
    requires forall p :: p in before.proxies ==> p in after.proxies && after.proxies[p].active == before.proxies[p].active
    requires before.workspaces <= after.workspaces
    ensures Joins(before) && Joins(after) && SameRouting(before, after)
  {
    InvJoins(parse, before);
    UntouchedTables(before, after);
    SameRoutingFrom(parse, before, after);
  }

  lemma ProxyStepIsCoherent(parse: Parser, db: Db, op: Op, first: nat)
    requires Inv(parse, db) && IsPermitted(parse, db, op)
    requires op.OpCreateOrganization? || op.OpCreateProxy? || op.OpImportRevision? || op.OpUpdateProxy?
    requires Execute(db, op, first).db.changes == db.changes
    ensures var after := Execute(db, op, first).db;
            Joins(db) && Joins(after) && SameRouting(db, after)
  {
    var after := Execute(db, op, first).db;
    StepKeepsInv(parse, db, op, first);
    StepEvolves(parse, db, op, first);
    assert after.rows == db.rows && after.workspaces == db.workspaces;
    ActiveFlagsStay(db, op, first);
    UntouchedIsCoherent(parse, db, after);
  }

  lemma ActiveFlagsStay(db: Db, op: Op, first: nat)
    requires op.OpCreateOrganization? || op.OpCreateProxy? || op.OpImportRevision? || op.OpUpdateProxy?
    requires Execute(db, op, first).db.changes == db.changes
    ensures var after := Execute(db, op, first).db;
            forall p :: p in db.proxies ==> p in after.proxies && after.proxies[p].active == db.proxies[p].active
  {
    if op.OpUpdateProxy? && UpdateProxy(db, op.proxy, op.newName, op.active, first).db != db {
      assert |db.changes + [Change(first, ProxyActivated)]| != |db.changes|;
      assert |db.changes + [Change(first, ProxyDeactivated)]| != |db.changes|;
    }
  }

  /** A workspace edit that recorded nothing found no active row. */
  lemma SilentDisableIsIdle(db: Db, w: nat, first: nat)
    requires w < |db.workspaces| && DisableResources(db, w, first).changes == db.changes
    ensures ActiveIn(db.rows, w) == [] && RetireAllIn(db.rows, w) == db.rows
  {}

  lemma DisableIsCoherent(parse: Parser, db: Db, w: nat, first: nat)
    requires Inv(parse, db) && w < |db.workspaces|
    requires DisableResources(db, w, first).changes == db.changes
    ensures var after := DisableResources(db, w, first);
            Joins(db) && Joins(after) && SameRouting(db, after)
  {
    var after := DisableResources(db, w, first);
    InvJoins(parse, db);
    SilentDisableIsIdle(db, w, first);
    IdleWorkspaceDisturbsNothing(parse, db, w, after);
    DisableKeepsInv(parse, db, w, first);
    DisableEvolves(db, w, first);
    SameRoutingFrom(parse, db, after);
  }

  lemma DeactivateIsCoherent(parse: Parser, db: Db, w: nat, status: WorkspaceStatus, first: nat)
    requires Inv(parse, db) && w < |db.workspaces| && db.workspaces[w].status.Open? && !status.Open?
    requires Deactivate(db, w, status, first).changes == db.changes
    ensures var after := Deactivate(db, w, status, first);
            Joins(db) && Joins(after) && SameRouting(db, after)
  {
    var after := Deactivate(db, w, status, first);
    InvJoins(parse, db);
    SilentDisableIsIdle(db, w, first);
    IdleWorkspaceDisturbsNothing(parse, db, w, after);
    DeactivateKeepsInv(parse, db, w, status, first);
    DeactivateEvolves(db, w, status, first);
    SameRoutingFrom(parse, db, after);
  }

  lemma ExpireIsCoherent(parse: Parser, db: Db, w: nat, first: nat)
    requires Inv(parse, db) && ExpireWorkspace(db, w, first).changes == db.changes
    ensures var after := ExpireWorkspace(db, w, first);
            Joins(db) && Joins(after) && SameRouting(db, after)
  {
    InvJoins(parse, db);
    if w < |db.workspaces| && db.workspaces[w].status.Open? {
      DeactivateIsCoherent(parse, db, w, Expired, first);
    }
  }

  lemma OwnerStepIsCoherent(parse: Parser, db: Db, op: Op, first: nat)
    requires Inv(parse, db) && (op.OpGetWorkspace? || op.OpRevokeWorkspace? || op.OpResetWorkspace?)
    requires Execute(db, op, first).db.changes == db.changes
    ensures var after := Execute(db, op, first).db;
            Joins(db) && Joins(after) && SameRouting(db, after)
  {
    InvJoins(parse, db);
    var w := OpenWorkspace(db.workspaces, op.owner);
    var after := Execute(db, op, first).db;
    if w.Some? && after != db {
      match op
      case OpGetWorkspace(_, _) => ExpireIsCoherent(parse, db, w.value, first);
      case OpRevokeWorkspace(_) => DeactivateIsCoherent(parse, db, w.value, Revoked, first);
      case OpResetWorkspace(_, _) => DisableIsCoherent(parse, db, w.value, first);
    }
  }

  lemma CreateWorkspaceIsCoherent(parse: Parser, db: Db, owner: Principal, org: string, now: int, first: nat)
    requires Inv(parse, db) && org !in db.orgs
    requires CreateWorkspace(db, owner, org, now, first).db.changes == db.changes
    ensures var after := CreateWorkspace(db, owner, org, now, first).db;
            Joins(db) && Joins(after) && SameRouting(db, after)
  {
    InvJoins(parse, db);
    var after := CreateWorkspace(db, owner, org, now, first).db;
    if after != db {
      CreateWorkspaceKeepsInv(parse, db, owner, org, now, first);
      CreateWorkspaceEvolves(db, owner, org, now, first);
      match OpenWorkspace(db.workspaces, owner)
      case None => UntouchedIsCoherent(parse, db, after);
      case Some(w) =>
        SilentDisableIsIdle(db, w, first);
        IdleWorkspaceDisturbsNothing(parse, db, w, after);
        SameRoutingFrom(parse, db, after);
    }
  }

  /** Any permitted transaction that records no configuration change leaves every
      gateway's routing view as it was, at every clock reading and allowlist. */
  lemma SilentStepsKeepRouting(parse: Parser, db: Db, op: Op, first: nat)
    requires Inv(parse, db) && IsPermitted(parse, db, op)
    requires Execute(db, op, first).db.changes == db.changes
    ensures var after := Execute(db, op, first).db;
            Joins(db) && Joins(after) && SameRouting(db, after)
  {
    InvJoins(parse, db);
    match op
    case OpCreateOrganization(_) => ProxyStepIsCoherent(parse, db, op, first);
    case OpCreateProxy(_, _, _, _) => ProxyStepIsCoherent(parse, db, op, first);
    case OpImportRevision(_, _, _) => ProxyStepIsCoherent(parse, db, op, first);
    case OpUpdateProxy(_, _, _) => ProxyStepIsCoherent(parse, db, op, first);
    case OpDeploy(input, now) => assert |Execute(db, op, first).db.changes| == |db.changes|;
    case OpRetire(id, allow) => assert |Execute(db, op, first).db.changes| == |db.changes|;
    case OpCreateWorkspace(owner, org, now) => CreateWorkspaceIsCoherent(parse, db, owner, org, now, first);
    case OpGetWorkspace(_, _) => OwnerStepIsCoherent(parse, db, op, first);
    case OpRevokeWorkspace(_) => OwnerStepIsCoherent(parse, db, op, first);
    case OpResetWorkspace(_, _) => OwnerStepIsCoherent(parse, db, op, first);
    case OpExpireWorkspace(w) => ExpireIsCoherent(parse, db, w, first);
  }

  lemma RowEntryIsUnique(db: Db, k: nat, c: ProxyConfig, now: int, allow: set<string>)
    requires Joins(db) && k < |db.rows| && c in View(db, now, allow) && c.deployment == Row(k)
    ensures CanJoin(db, k) && c == ConfigOf(db, k)
  {}

  lemma RenamedRowIsNew(before: Db, after: Db, k: nat, now: int, allow: set<string>)
    requires Joins(before) && Joins(after) && k < |before.rows| && after.rows == before.rows
    requires IsServed(after, k, now, allow) && CanJoin(before, k) && CanJoin(after, k)
    requires ConfigOf(after, k) != ConfigOf(before, k)
    ensures View(after, now, allow) != View(before, now, allow)
  {
    assert ConfigOf(after, k) in ServedRows(after, now, allow);
    if ConfigOf(after, k) in View(before, now, allow) {
      RowEntryIsUnique(before, k, ConfigOf(after, k), now, allow);
    }
  }

  /** Names are the exception: renaming a served proxy changes what a fresh load
      would return, records nothing, and does so exactly when the name is new. */
  lemma RenamesAreSilent(parse: Parser, db: Db, proxy: string, name: string, k: nat, now: int, allow: set<string>, first: nat)
    requires Inv(parse, db) && proxy in db.proxies && !db.proxies[proxy].systemManaged
    requires 0 < |name| <= 120
    requires k < |db.rows| && db.rows[k].proxy == proxy && IsServed(db, k, now, allow)
    ensures var after := UpdateProxy(db, proxy, Some(name), None, first).db;
            && after.changes == db.changes
            && (View(after, now, allow) == View(db, now, allow) <==> name == db.proxies[proxy].name)
  {
    var after := UpdateProxy(db, proxy, Some(name), None, first).db;
    InvJoins(parse, db);
    RenamedJoins(db, proxy, name, first);
    if name == db.proxies[proxy].name {
      RenamedToItself(db, proxy, name, first);
      SameTablesSameView(db, after, now, allow);
    } else {
      RenamedRow(db, proxy, name, k, now, allow, first);
      RenamedRowIsNew(db, after, k, now, allow);
    }
  }

  lemma RenamedJoins(db: Db, proxy: string, name: string, first: nat)
    requires Joins(db)
    ensures Joins(UpdateProxy(db, proxy, Some(name), None, first).db)
  {
    var after := UpdateProxy(db, proxy, Some(name), None, first).db;
    forall k: nat | k < |after.rows| ensures CanJoin(after, k) {
      assert CanJoin(db, k);
    }
  }

  lemma RenamedToItself(db: Db, proxy: string, name: string, first: nat)
    requires proxy in db.proxies && name == db.proxies[proxy].name
    ensures UpdateProxy(db, proxy, Some(name), None, first).db.proxies == db.proxies
  {}

  lemma RenamedRow(db: Db, proxy: string, name: string, k: nat, now: int, allow: set<string>, first: nat)
    requires Joins(db) && proxy in db.proxies && !db.proxies[proxy].systemManaged && 0 < |name| <= 120
    requires k < |db.rows| && db.rows[k].proxy == proxy && IsServed(db, k, now, allow) && name != db.proxies[proxy].name
    ensures var after := UpdateProxy(db, proxy, Some(name), None, first).db;
            && IsServed(after, k, now, allow) && CanJoin(db, k) && CanJoin(after, k)
            && ConfigOf(after, k) != ConfigOf(db, k)
  {}

  lemma SameTablesSameView(a: Db, b: Db, now: int, allow: set<string>)
    requires Joins(a) && Joins(b)
    requires a.rows == b.rows && a.proxies == b.proxies && a.orgs == b.orgs
    requires a.environments == b.environments && a.workspaces == b.workspaces
    ensures View(a, now, allow) == View(b, now, allow)
  {
    forall k: nat | k < |a.rows|
      ensures CanJoin(a, k) && CanJoin(b, k) && ConfigOf(a, k) == ConfigOf(b, k)
      ensures IsServed(a, k, now, allow) <==> IsServed(b, k, now, allow)
    {}
    forall k: nat, w: nat | k < |a.rows|
      ensures NeedsCopy(a, k, w, now, allow) <==> NeedsCopy(b, k, w, now, allow)
    {
      assert HasContext(a, w, a.rows[k].environment, now, allow) <==> HasContext(b, w, a.rows[k].environment, now, allow);
    }
    assert ServedRows(a, now, allow) == ServedRows(b, now, allow);
    assert OAuthCopies(a, now, allow) == OAuthCopies(b, now, allow);
  }

  // --------------------------------------------------------------- the clock

  lemma ServedLater(db: Db, k: nat, early: int, late: int, allow: set<string>)
    requires early <= late
    ensures IsServed(db, k, late, allow) ==> IsServed(db, k, early, allow)
    ensures IsServed(db, k, early, allow) && !IsServed(db, k, late, allow) ==>
              && db.rows[k].workspace.Some? && early < db.workspaces[db.rows[k].workspace.value].expiresAt <= late
  {}

  /** The entry's workspace, if it has one, is not overdue. */
  predicate IsInTime(db: Db, c: ProxyConfig, now: int) {
    c.workspace.Some? ==> c.workspace.value < |db.workspaces| && now < db.workspaces[c.workspace.value].expiresAt
  }

  /** Waiting changes a view in one way only: exactly the entries of workspaces that expired
      in the meantime disappear. */
  lemma WaitingOnlyDropsExpired(db: Db, early: int, late: int, allow: set<string>)
    requires Joins(db) && early <= late
    ensures View(db, late, allow) == set c | c in View(db, early, allow) && IsInTime(db, c, late)
  {
    forall k: nat {
      ServedLater(db, k, early, late, allow);
    }
    forall k: nat, w: nat | k < |db.rows|
      ensures NeedsCopy(db, k, w, late, allow) ==> NeedsCopy(db, k, w, early, allow)
      ensures NeedsCopy(db, k, w, early, allow) && !NeedsCopy(db, k, w, late, allow) ==>
                w < |db.workspaces| && early < db.workspaces[w].expiresAt <= late
    {
      CopyLater(db, k, w, early, late, allow);
    }
  }

  lemma CopyLater(db: Db, k: nat, w: nat, early: int, late: int, allow: set<string>)
    requires k < |db.rows| && early <= late
    ensures NeedsCopy(db, k, w, late, allow) ==> NeedsCopy(db, k, w, early, allow)
    ensures NeedsCopy(db, k, w, early, allow) && !NeedsCopy(db, k, w, late, allow) ==>
              w < |db.workspaces| && early < db.workspaces[w].expiresAt <= late
  {}
}
