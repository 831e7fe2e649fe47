/** What each transaction does to the entries a gateway loads: from the tables to the view. */
module Effects {
  import opened Schema
  import opened Seqs
  import opened Bundle
  import opened Ledger
  import opened LedgerInvariants
  import opened Loader
  import opened Coherence
  import opened Registry
  import opened Transactions

  // ------------------------------------------------------------------- the allowlist

  lemma AllowedContexts(db: Db, w: nat, environment: string, now: int, allow: set<string>)
    requires allow != {}
    ensures HasContext(db, w, environment, now, allow) <==> HasContext(db, w, environment, now, {}) && environment in allow
  {}

  /** An allowlist that is not empty admits exactly the entries of its environments, those
      lent to workspaces included. */
  lemma AllowlistRestricts(db: Db, now: int, allow: set<string>)
    requires allow != {}
    ensures View(db, now, allow) == set c | c in View(db, now, {}) && c.environment in allow
  {
    forall k: nat | k < |db.rows|
      ensures IsServed(db, k, now, allow) <==> IsServed(db, k, now, {}) && db.rows[k].environment in allow
    {}
    forall k: nat, w: nat | k < |db.rows|
      ensures NeedsCopy(db, k, w, now, allow) <==> NeedsCopy(db, k, w, now, {}) && db.rows[k].environment in allow
    {
      AllowedContexts(db, w, db.rows[k].environment, now, allow);
    }
  }

  // ------------------------------------------------------------------ which rows remain

  /** Row k means the same in both states, to a load at this time. */
  predicate IsKept(before: Db, after: Db, k: nat, now: int, allow: set<string>) {
    && k < |before.rows| && k < |after.rows| && CanJoin(before, k) && CanJoin(after, k)
    && (IsServed(before, k, now, allow) <==> IsServed(after, k, now, allow))
    && (IsServed(before, k, now, allow) ==> ConfigOf(before, k) == ConfigOf(after, k))
  }

  /** Without row `gone`, and with all other rows kept, exactly the entries of that row go. */
  lemma OthersRemain(before: Db, after: Db, gone: set<nat>, now: int, allow: set<string>)
    requires Joins(before) && Joins(after) && |after.rows| == |before.rows|
    requires forall k: nat :: k < |before.rows| ==>
               if k in gone then !IsServed(after, k, now, allow) else IsKept(before, after, k, now, allow)
    ensures ServedRows(after, now, allow) == set c | c in ServedRows(before, now, allow) && c.deployment.id !in gone
  {
    var left := set c | c in ServedRows(before, now, allow) && c.deployment.id !in gone;
    forall c | c in ServedRows(after, now, allow) ensures c in left {
      var k: nat :| k < |after.rows| && IsServed(after, k, now, allow) && CanJoin(after, k) && c == ConfigOf(after, k);
      assert IsKept(before, after, k, now, allow);
    }
    forall c | c in left ensures c in ServedRows(after, now, allow) {
      var k: nat :| k < |before.rows| && IsServed(before, k, now, allow) && CanJoin(before, k) && c == ConfigOf(before, k);
      assert IsKept(before, after, k, now, allow);
    }
  }

  // ------------------------------------------------------------------------ retiring

  lemma RetiredJoins(parse: Parser, db: Db, id: nat, allowSystemManaged: bool, version: nat)
    requires Inv(parse, db) && Retire(db, id, allowSystemManaged, version).reply.Ok?
    ensures Joins(db) && Joins(Retire(db, id, allowSystemManaged, version).db)
  {
    RetireKeepsInv(parse, db, id, version);
    InvJoins(parse, db);
    InvJoins(parse, Retire(db, id, allowSystemManaged, version).db);
  }

  /** Retiring takes exactly the row's own entry out of what is loaded. */
  lemma RetireShowsUp(parse: Parser, db: Db, id: nat, allowSystemManaged: bool, version: nat, now: int, allow: set<string>)
    requires Inv(parse, db) && Retire(db, id, allowSystemManaged, version).reply.Ok?
    ensures ServedRows(Retire(db, id, allowSystemManaged, version).db, now, allow)
         == set c | c in ServedRows(db, now, allow) && c.deployment.id != id
  {
    var after := Retire(db, id, allowSystemManaged, version).db;
    RetiredJoins(parse, db, id, allowSystemManaged, version);
    forall k: nat | k < |db.rows| && k != id ensures IsKept(db, after, k, now, allow) {
      assert CanJoin(db, k) && CanJoin(after, k);
    }
    OthersRemain(db, after, {id}, now, allow);
  }

  // ----------------------------------------------------------------------- switching

  lemma SwitchedJoins(db: Db, proxy: string, active: bool, version: nat)
    requires Joins(db)
    ensures Joins(UpdateProxy(db, proxy, None, Some(active), version).db)
  {
    var after := UpdateProxy(db, proxy, None, Some(active), version).db;
    forall k: nat | k < |after.rows| ensures CanJoin(after, k) {
      assert CanJoin(db, k);
    }
  }

  function RowsOf(rows: seq<Deployment>, proxy: string): set<nat> {
    set k: nat | k < |rows| && rows[k].proxy == proxy
  }

  /** Switching a proxy off takes exactly its entries out of what is loaded. */
  lemma SwitchingOffShowsUp(db: Db, proxy: string, version: nat, now: int, allow: set<string>)
    requires Joins(db) && UpdateProxy(db, proxy, None, Some(false), version).reply.Ok?
    ensures ServedRows(UpdateProxy(db, proxy, None, Some(false), version).db, now, allow)
         == set c | c in ServedRows(db, now, allow) && c.id != proxy
  {
    var after := UpdateProxy(db, proxy, None, Some(false), version).db;
    SwitchedJoins(db, proxy, false, version);
    forall k: nat | k < |db.rows| && k !in RowsOf(db.rows, proxy) ensures IsKept(db, after, k, now, allow) {
      assert CanJoin(db, k) && CanJoin(after, k);
    }
    OthersRemain(db, after, RowsOf(db.rows, proxy), now, allow);
    assert forall c :: c in ServedRows(db, now, allow) ==> (c.deployment.id in RowsOf(db.rows, proxy) <==> c.id == proxy);
  }

  /** And switching it on again brings all of them back, lent copies included. */
  lemma SwitchingBackShowsUp(db: Db, proxy: string, version: nat, next: nat, now: int, allow: set<string>)
    requires Joins(db) && proxy in db.proxies && !db.proxies[proxy].systemManaged && db.proxies[proxy].active
    ensures var off := UpdateProxy(db, proxy, None, Some(false), version).db;
            View(UpdateProxy(off, proxy, None, Some(true), next).db, now, allow) == View(db, now, allow)
  {
    var off := UpdateProxy(db, proxy, None, Some(false), version).db;
    SwitchedJoins(db, proxy, false, version);
    SwitchedJoins(off, proxy, true, next);
    SwitchingBackRestores(db, proxy, version, next);
    SameTablesSameView(UpdateProxy(off, proxy, None, Some(true), next).db, db, now, allow);
  }

  // --------------------------------------------------------------- emptying a workspace

  function RowsIn(rows: seq<Deployment>, w: nat): set<nat> {
    set k: nat | k < |rows| && rows[k].workspace == Some(w)
  }

  predicate OthersAreAsBefore(before: seq<Workspace>, after: seq<Workspace>, w: nat) {
    |after| == |before| && forall v :: 0 <= v < |before| && v != w ==> after[v] == before[v]
  }

  lemma EmptiedJoins(db: Db, after: Db, w: nat, k: nat)
    requires w < |db.workspaces| && IsEmptied(db, after, w) && CanJoin(db, k)
    ensures CanJoin(after, k)
  {}

  lemma OthersAreKept(parse: Parser, db: Db, after: Db, w: nat, k: nat, now: int, allow: set<string>)
    requires Inv(parse, db) && w < |db.workspaces| && IsEmptied(db, after, w)
    requires OthersAreAsBefore(db.workspaces, after.workspaces, w)
    requires k < |db.rows| && CanJoin(db, k) && CanJoin(after, k) && db.rows[k].workspace != Some(w)
    ensures IsKept(db, after, k, now, allow)
  {
    assert RowIsRooted(db.rows[k], db.proxies, db.environments, db.workspaces);
    if db.proxies[db.rows[k].proxy].org == db.workspaces[w].org {
      assert !IsServed(db, k, now, allow);
    }
  }

  /** Revoking, expiring or resetting a workspace takes exactly the entries of its rows out
      of what is loaded. */
  lemma EmptyingShowsUp(parse: Parser, db: Db, after: Db, w: nat, now: int, allow: set<string>)
    requires Inv(parse, db) && w < |db.workspaces| && IsEmptied(db, after, w)
    requires OthersAreAsBefore(db.workspaces, after.workspaces, w)
    ensures ServedRows(after, now, allow) == set c | c in ServedRows(db, now, allow) && c.workspace != Some(w)
  {
    InvJoins(parse, db);
    forall k: nat | k < |db.rows|
      ensures CanJoin(after, k)
      ensures if k in RowsIn(db.rows, w) then !IsServed(after, k, now, allow) else IsKept(db, after, k, now, allow)
    {
      EmptiedJoins(db, after, w, k);
      if k !in RowsIn(db.rows, w) { OthersAreKept(parse, db, after, w, k, now, allow); }
    }
    OthersRemain(db, after, RowsIn(db.rows, w), now, allow);
    EntriesOfRows(db, w, now, allow);
  }

  lemma EntriesOfRows(db: Db, w: nat, now: int, allow: set<string>)
    ensures forall c :: c in ServedRows(db, now, allow) ==> (c.deployment.id in RowsIn(db.rows, w) <==> c.workspace == Some(w))
  {}

  // ----------------------------------------------------------------------- deploying

  /** The entry of a deployment, field by field. */
  function EntryFor(db: Db, i: DeployInput): ProxyConfig
    requires HasRevision(db.proxies, i.proxy, i.revision) && i.environment in db.environments
  {
    var proxy, revision, e := db.proxies[i.proxy], db.proxies[i.proxy].revisions[i.revision - 1], db.environments[i.environment];
    var host := if i.workspace.Some? then LabHost(i.workspace.value) else EnvironmentHost(e.host);
    ProxyConfig(
      i.proxy, proxy.name, revision.basePath, Row(|db.rows|), i.revision, i.environment, i.workspace, Authority(host, e.port),
      proxy.systemManaged, KeptUpstream(i), proxy.org, true, revision.operations)
  }

  /** Deployments of the proxy are for this gateway: the proxy is on, a standard deployment's
      organization is a standard one, and the environment is admitted. */
  predicate IsForLoading(db: Db, i: DeployInput, allow: set<string>)
    requires i.proxy in db.proxies && db.proxies[i.proxy].org in db.orgs
  {
    && db.proxies[i.proxy].active && (allow == {} || i.environment in allow)
    && (i.workspace.None? ==> db.orgs[db.proxies[i.proxy].org].StandardOrg?)
  }

  lemma NewRowIsServedIff(parse: Parser, db: Db, i: DeployInput, now: int, version: nat, allow: set<string>)
    requires Inv(parse, db) && Deploy(db, i, now, version).reply.Ok?
    ensures HasRevision(db.proxies, i.proxy, i.revision) && i.environment in db.environments && db.proxies[i.proxy].org in db.orgs
    ensures var after := Deploy(db, i, now, version).db;
            && CanJoin(after, |db.rows|)
            && (IsServed(after, |db.rows|, now, allow) <==> IsForLoading(db, i, allow))
            && ConfigOf(after, |db.rows|).(active := true) == EntryFor(db, i)
  {
    var after := Deploy(db, i, now, version).db;
    DeploySucceedsIff(parse, db, i, now, version);
    LawfulRowIsRooted(db, i);
  }

  lemma OldRowIsKept(parse: Parser, db: Db, i: DeployInput, now: int, version: nat, k: nat, allow: set<string>)
    requires Inv(parse, db) && Deploy(db, i, now, version).reply.Ok? && k < |db.rows|
    ensures var after := Deploy(db, i, now, version).db;
            && k < |after.rows| && CanJoin(db, k) && CanJoin(after, k)
            && (IsServed(after, k, now, allow) <==>
                  IsServed(db, k, now, allow) && !IsSlot(db.rows[k], i.proxy, i.environment, i.workspace))
            && (IsServed(after, k, now, allow) ==> ConfigOf(after, k) == ConfigOf(db, k))
  {
    DeploySucceedsIff(parse, db, i, now, version);
    InvJoins(parse, db);
    assert CanJoin(db, k);
  }

  /** The entry takes the place of the one in its slot. */
  predicate IsReplaced(c: ProxyConfig, i: DeployInput) {
    c.id == i.proxy && c.environment == i.environment && c.workspace == i.workspace
  }

  /** The entries a deploy leaves in place. */
  ghost function Others(db: Db, i: DeployInput, now: int, allow: set<string>): set<ProxyConfig> {
    set c | c in ServedRows(db, now, allow) && !IsReplaced(c, i)
  }

  lemma LoadedAfterDeploy(parse: Parser, db: Db, i: DeployInput, now: int, version: nat, allow: set<string>, k: nat)
    requires Inv(parse, db) && Deploy(db, i, now, version).reply.Ok?
    requires var after := Deploy(db, i, now, version).db;
             k < |after.rows| && IsServed(after, k, now, allow) && CanJoin(after, k)
    ensures if k < |db.rows| then ConfigOf(Deploy(db, i, now, version).db, k) in Others(db, i, now, allow)
            else k == |db.rows|
  {
    if k < |db.rows| {
      OldRowIsKept(parse, db, i, now, version, k, allow);
    } else {
      DeploySucceedsIff(parse, db, i, now, version);
    }
  }

  lemma OthersAreLoaded(parse: Parser, db: Db, i: DeployInput, now: int, version: nat, allow: set<string>)
    requires Inv(parse, db) && Deploy(db, i, now, version).reply.Ok?
    ensures Others(db, i, now, allow) <= ServedRows(Deploy(db, i, now, version).db, now, allow)
  {
    forall c | c in Others(db, i, now, allow) ensures c in ServedRows(Deploy(db, i, now, version).db, now, allow) {
      var k: nat :| k < |db.rows| && IsServed(db, k, now, allow) && CanJoin(db, k) && c == ConfigOf(db, k);
      OldRowIsKept(parse, db, i, now, version, k, allow);
    }
  }

  /** A deploy puts exactly one entry into what is loaded, in place of the proxy's entry in
      the same environment and scope, as long as the proxy is on, of the right kind of
      organization, and its environment is admitted; no other entry changes. */
  lemma DeployShowsUp(parse: Parser, db: Db, i: DeployInput, now: int, version: nat, allow: set<string>)
    requires Inv(parse, db) && Deploy(db, i, now, version).reply.Ok?
    ensures HasRevision(db.proxies, i.proxy, i.revision) && i.environment in db.environments && db.proxies[i.proxy].org in db.orgs
    ensures var after := Deploy(db, i, now, version).db;
            ServedRows(after, now, allow)
            == Others(db, i, now, allow) + if IsForLoading(db, i, allow) then {EntryFor(db, i)} else {}
  {
    var after := Deploy(db, i, now, version).db;
    NewRowIsServedIff(parse, db, i, now, version, allow);
    OthersAreLoaded(parse, db, i, now, version, allow);
    var entry := EntryFor(db, i);
    forall c | c in ServedRows(after, now, allow)
      ensures c in Others(db, i, now, allow) || (c == entry && IsForLoading(db, i, allow))
    {
      var k: nat :| k < |after.rows| && IsServed(after, k, now, allow) && CanJoin(after, k) && c == ConfigOf(after, k);
      LoadedAfterDeploy(parse, db, i, now, version, allow, k);
    }
  }

  // ------------------------------------------------------------------- lent OAuth entries

  /** Row k, served in the standard scope, is the platform's OAuth proxy in the environment. */
  predicate IsOAuthServed(db: Db, k: nat, environment: string, now: int, allow: set<string>) {
    && k < |db.rows| && IsServed(db, k, now, allow) && db.rows[k].workspace.None?
    && db.rows[k].proxy == "proxy-platform-oauth" && db.rows[k].environment == environment
  }

  predicate IsLabServed(db: Db, j: nat, w: nat, environment: string, now: int, allow: set<string>) {
    && j < |db.rows| && IsServed(db, j, now, allow) && db.rows[j].workspace == Some(w)
    && db.rows[j].environment == environment
  }

  /** A workspace is lent the OAuth entry of an environment exactly when it has something
      served there and the OAuth proxy is. */
  lemma OAuthIsLentIff(db: Db, w: nat, environment: string, now: int, allow: set<string>)
    requires Joins(db)
    ensures (exists c :: c in View(db, now, allow) && c.deployment.LabCopy? && c.workspace == Some(w) && c.environment == environment)
       <==> (exists j :: 0 <= j < |db.rows| && IsLabServed(db, j, w, environment, now, allow))
            && (exists k :: 0 <= k < |db.rows| && IsOAuthServed(db, k, environment, now, allow))
  {
    if c :| c in View(db, now, allow) && c.deployment.LabCopy? && c.workspace == Some(w) && c.environment == environment {
      var k: nat, v: nat :| k < |db.rows| && v < |db.workspaces| && NeedsCopy(db, k, v, now, allow) && CanJoin(db, k)
        && c == CopyFor(ConfigOf(db, k), v);
      assert IsOAuthServed(db, k, environment, now, allow);
      var j: nat :| j < |db.rows| && IsServed(db, j, now, allow) && db.rows[j].workspace == Some(v)
        && db.rows[j].environment == db.rows[k].environment;
      assert IsLabServed(db, j, w, environment, now, allow);
    }
    if j :| 0 <= j < |db.rows| && IsLabServed(db, j, w, environment, now, allow) {
      if k :| 0 <= k < |db.rows| && IsOAuthServed(db, k, environment, now, allow) {
        assert CanJoin(db, k) && HasContext(db, w, environment, now, allow) && NeedsCopy(db, k, w, now, allow);
        assert CopyFor(ConfigOf(db, k), w) in View(db, now, allow);
      }
    }
  }

  /** It is the platform's entry with the workspace's key and host, on the platform's port. */
  lemma LentEntryIs(db: Db, c: ProxyConfig, now: int, allow: set<string>) returns (original: ProxyConfig, w: nat)
    requires Joins(db) && c in View(db, now, allow) && c.deployment.LabCopy?
    ensures original in View(db, now, allow) && original.deployment.Row? && original.workspace.None?
    ensures original.id == "proxy-platform-oauth"
    ensures c == ProxyConfig(
              original.id, original.name, original.basePath, LabCopy(original.deployment.id, w), original.revisionNumber,
              original.environment, Some(w), Authority(LabHost(w), original.authority.port), original.systemManaged,
              original.upstream, original.org, original.active, original.endpoints)
  {
    var k: nat, v: nat :| k < |db.rows| && v < |db.workspaces| && NeedsCopy(db, k, v, now, allow) && CanJoin(db, k)
      && c == CopyFor(ConfigOf(db, k), v);
    original, w := ConfigOf(db, k), v;
  }

  /** Whatever the tables hold, even an active row that a race has left in a closed workspace:
      an entry with a workspace is of one that is open and not overdue, a row's own entry is in
      the scope of its organization, and its proxy is active. */
  lemma LoadedIsLive(db: Db, now: int, allow: set<string>, c: ProxyConfig)
    requires c in View(db, now, allow)
    ensures c.id in db.proxies && db.proxies[c.id].active && c.org == db.proxies[c.id].org && c.org in db.orgs && c.active
    ensures match c.workspace
            case None => db.orgs[c.org].StandardOrg?
            case Some(w) =>
              && w < |db.workspaces| && db.workspaces[w].status.Open? && now < db.workspaces[w].expiresAt
              && if c.deployment.Row? then db.orgs[c.org].LabOrg? else c.id == "proxy-platform-oauth"
  {
    if c in ServedRows(db, now, allow) {
      var k: nat :| k < |db.rows| && IsServed(db, k, now, allow) && CanJoin(db, k) && c == ConfigOf(db, k);
    } else {
      var k: nat, w: nat :| k < |db.rows| && w < |db.workspaces| && NeedsCopy(db, k, w, now, allow) && CanJoin(db, k)
        && c == CopyFor(ConfigOf(db, k), w);
      var j: nat :| j < |db.rows| && IsServed(db, j, now, allow) && db.rows[j].workspace == Some(w)
        && db.rows[j].environment == db.rows[k].environment;
    }
  }

  // -------------------------------------------------------------------- and to requests

  /** Requests for a deployment's base path, at the host it was deployed to, reach its revision
      once a gateway has loaded it. */
  lemma DeployedIsReached(
    parse: Parser, db: Db, i: DeployInput, now: int, version: nat, allow: set<string>,
    configs: seq<ProxyConfig>, tables: map<Key, Table>, runtimes: map<Authority, Target>, best: Option<ProxyConfig>)
    requires Inv(parse, db) && Deploy(db, i, now, version).reply.Ok?
    requires i.proxy in db.proxies && db.proxies[i.proxy].org in db.orgs && IsForLoading(db, i, allow)
    requires HasRevision(db.proxies, i.proxy, i.revision) && i.environment in db.environments
    requires RevisionOf(db.proxies, i.proxy, i.revision).basePath != ""
    requires Lists(configs, View(Deploy(db, i, now, version).db, now, allow))
    requires TablesHold(tables, configs) && RuntimesHold(runtimes, configs)
    ensures var entry := EntryFor(db, i);
            && entry.authority in runtimes
            && (ResolvesTo(tables, runtimes[entry.authority].key, entry.basePath, best) ==> best == Some(Prepared(entry)))
  {
    var entry := EntryFor(db, i);
    DeployShowsUp(parse, db, i, now, version, allow);
    assert entry in View(Deploy(db, i, now, version).db, now, allow);
    LoadedIsReached(configs, tables, runtimes, entry, best);
  }

  lemma LoadedIsReached(
    configs: seq<ProxyConfig>, tables: map<Key, Table>, runtimes: map<Authority, Target>, entry: ProxyConfig,
    best: Option<ProxyConfig>)
    requires entry in configs && entry.active && entry.basePath != ""
    requires TablesHold(tables, configs) && RuntimesHold(runtimes, configs)
    ensures entry.authority in runtimes && runtimes[entry.authority].key == KeyOf(entry)
    ensures ResolvesTo(tables, KeyOf(entry), entry.basePath, best) ==> best == Some(Prepared(entry))
  {
    var k :| 0 <= k < |configs| && configs[k] == entry;
    assert Lookup(tables, KeyOf(configs[k]), configs[k].basePath) == Some(Prepared(configs[k]));
    if ResolvesTo(tables, KeyOf(entry), entry.basePath, best) {
      assert Candidate(tables[KeyOf(entry)], entry.basePath, entry.basePath);
      var b :| IsLongest(tables[KeyOf(entry)], b, entry.basePath) && best == Some(tables[KeyOf(entry)][b]);
      LongestIsUnique(b, entry.basePath, entry.basePath);
    }
  }
}
