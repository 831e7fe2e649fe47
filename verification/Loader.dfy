/** `loadProxiesFromDatabase`: the gateway's view of the control plane's tables. */
module Loader {
  import opened Schema
  import opened Bundle
  import opened Ledger
  import opened LedgerInvariants

  const OAUTH_PROXY := "proxy-platform-oauth"

  /** The host part of a public origin: an environment's own, or the one of a workspace. */
  datatype Host = EnvironmentHost(name: string) | LabHost(workspace: nat)

  datatype Authority = Authority(host: Host, port: string)

  /** Which row a configuration came from; a lab copy reuses the platform's OAuth row. */
  datatype Origin = Row(id: nat) | LabCopy(id: nat, workspace: nat)

  datatype ProxyConfig = ProxyConfig(
    id: string,
    name: string,
    basePath: string,
    deployment: Origin,
    revisionNumber: nat,
    environment: string,
    workspace: Option<nat>,
    authority: Authority,
    systemManaged: bool,
    upstream: Option<string>,
    org: string,
    active: bool,
    endpoints: seq<Operation>)

  // --------------------------------------------------------------- the query

  /** The `where` clause; an empty allowlist admits every environment. */
  predicate IsServed(db: Db, k: nat, now: int, allow: set<string>) {
    && k < |db.rows|
    && var row := db.rows[k];
    && row.status.Active?
    && row.proxy in db.proxies && db.proxies[row.proxy].active && db.proxies[row.proxy].org in db.orgs
    && (match row.workspace
        case None => db.orgs[db.proxies[row.proxy].org].StandardOrg?
        case Some(w) =>
          && w < |db.workspaces| && db.workspaces[w].status.Open? && db.workspaces[w].expiresAt > now
          && db.orgs[db.proxies[row.proxy].org].LabOrg?)
    && (allow == {} || row.environment in allow)
  }

  /** The row can be joined with its revision and environment, as its foreign keys promise. */
  predicate CanJoin(db: Db, k: nat) {
    && k < |db.rows| && HasRevision(db.proxies, db.rows[k].proxy, db.rows[k].revision)
    && db.rows[k].environment in db.environments
  }

  ghost predicate Joins(db: Db) {
    forall k: nat :: k < |db.rows| ==> CanJoin(db, k)
  }

  // ------------------------------------------------------- row to configuration

  function AuthorityOf(environment: Environment, workspace: Option<nat>): Authority {
    match workspace
    case None => Authority(EnvironmentHost(environment.host), environment.port)
    case Some(w) => Authority(LabHost(w), environment.port)
  }

  /** The configuration of a row, its operations as compiled. */
  function ConfigOf(db: Db, k: nat): ProxyConfig
    requires CanJoin(db, k)
  {
    var row := db.rows[k];
    var proxy, revision := db.proxies[row.proxy], RevisionOf(db.proxies, row.proxy, row.revision);
    ProxyConfig(
      row.proxy, proxy.name, revision.basePath, Row(k), row.revision, row.environment, row.workspace,
      AuthorityOf(db.environments[row.environment], row.workspace),
      proxy.systemManaged, row.upstream, proxy.org, row.status.Active? && proxy.active, revision.operations)
  }

  function LoadOperations(parse: Parser, ops: seq<Operation>, upstream: Option<string>): Option<seq<Operation>> {
    if ops == [] then Some([])
    else
      match (LoadOperation(parse, ops[0], upstream), LoadOperations(parse, ops[1..], upstream))
      case (Some(op), Some(rest)) => Some([op] + rest)
      case _ => None
  }

  /** The mapping of one row, None where it throws. */
  function LoadRow(parse: Parser, db: Db, k: nat): Option<ProxyConfig>
    requires CanJoin(db, k)
  {
    match LoadOperations(parse, ConfigOf(db, k).endpoints, db.rows[k].upstream)
    case Some(endpoints) => Some(ConfigOf(db, k).(endpoints := endpoints))
    case None => None
  }

  /** The OAuth configuration as a workspace sees it. */
  function CopyFor(oauth: ProxyConfig, workspace: nat): ProxyConfig
    requires oauth.deployment.Row?
  {
    oauth.(deployment := LabCopy(oauth.deployment.id, workspace),
           workspace := Some(workspace),
           authority := Authority(LabHost(workspace), oauth.authority.port))
  }

  predicate IsOAuthRow(db: Db, k: nat, environment: string) {
    && k < |db.rows| && db.rows[k].proxy == OAUTH_PROXY && db.rows[k].environment == environment
    && db.rows[k].workspace.None?
  }

  /** A served lab row gives its workspace a context in its environment. */
  predicate HasContext(db: Db, workspace: nat, environment: string, now: int, allow: set<string>) {
    exists j: nat :: j < |db.rows| && IsServed(db, j, now, allow)
      && db.rows[j].workspace == Some(workspace) && db.rows[j].environment == environment
  }

  /** A (row, workspace) pair that yields a synthetic OAuth entry. */
  predicate NeedsCopy(db: Db, k: nat, w: nat, now: int, allow: set<string>) {
    && k < |db.rows| && IsServed(db, k, now, allow) && IsOAuthRow(db, k, db.rows[k].environment)
    && HasContext(db, w, db.rows[k].environment, now, allow)
  }

  ghost function ServedRows(db: Db, now: int, allow: set<string>): set<ProxyConfig> {
    set k: nat | k < |db.rows| && IsServed(db, k, now, allow) && CanJoin(db, k) :: ConfigOf(db, k)
  }

  ghost function OAuthCopies(db: Db, now: int, allow: set<string>): set<ProxyConfig> {
    set k: nat, w: nat
      | k < |db.rows| && w < |db.workspaces| && NeedsCopy(db, k, w, now, allow) && CanJoin(db, k)
      :: CopyFor(ConfigOf(db, k), w)
  }

  /** Everything the loader returns, as a set. */
  ghost function View(db: Db, now: int, allow: set<string>): set<ProxyConfig> {
    ServedRows(db, now, allow) + OAuthCopies(db, now, allow)
  }

  /** The view with display names, which no routing decision reads, left out. */
  ghost function Nameless(configs: set<ProxyConfig>): set<ProxyConfig> {
    set c | c in configs :: c.(name := "")
  }

  // ---------------------------------------------------------------- coherence

  lemma RootedRowsJoin(db: Db)
    requires Rooted(db.rows, db.proxies, db.environments, db.workspaces)
    ensures Joins(db)
  {}

  /** Nothing the query reads about row k has changed, or the row is a standard
      one of a lab organization, which is never served. */
  ghost predicate Undisturbed(before: Db, after: Db, k: nat)
    requires k < |before.rows| && CanJoin(before, k)
  {
    var row := before.rows[k];
    row.status.Active? ==>
      || (row.workspace.None? && before.proxies[row.proxy].org in before.orgs && before.orgs[before.proxies[row.proxy].org].LabOrg?)
      || (&& row.proxy in after.proxies && after.proxies[row.proxy].active == before.proxies[row.proxy].active
          && (row.workspace.Some? ==>
                && row.workspace.value < |before.workspaces| && row.workspace.value < |after.workspaces|
                && after.workspaces[row.workspace.value] == before.workspaces[row.workspace.value]))
  }

  /** The two states serve the same rows, with configurations equal up to names. */
  ghost predicate Agree(before: Db, after: Db, now: int, allow: set<string>)
    requires Joins(before) && Joins(after)
  {
    && after.rows == before.rows
    && forall k: nat :: k < |before.rows| ==>
         && (IsServed(before, k, now, allow) <==> IsServed(after, k, now, allow))
         && (IsServed(before, k, now, allow) ==> ConfigOf(before, k).(name := "") == ConfigOf(after, k).(name := ""))
  }

  ghost predicate SameRouting(before: Db, after: Db) {
    forall now, allow :: Nameless(View(before, now, allow)) == Nameless(View(after, now, allow))
  }

  lemma UndisturbedRowsAgree(before: Db, after: Db, now: int, allow: set<string>)
    requires Evolves(before, after) && after.rows == before.rows
    requires Joins(before) && Joins(after)
    requires forall k: nat :: k < |before.rows| ==> Undisturbed(before, after, k)
    requires forall p :: p in before.proxies ==> before.proxies[p].org in before.orgs
    ensures Agree(before, after, now, allow)
  {
    forall k: nat | k < |before.rows|
      ensures IsServed(before, k, now, allow) <==> IsServed(after, k, now, allow)
      ensures IsServed(before, k, now, allow) ==> ConfigOf(before, k).(name := "") == ConfigOf(after, k).(name := "")
    {
      assert CanJoin(before, k) && CanJoin(after, k) && Undisturbed(before, after, k);
      assert ProxyEvolves(before.proxies[before.rows[k].proxy], after.proxies[before.rows[k].proxy]);
    }
  }

  lemma AgreeingContexts(before: Db, after: Db, w: nat, environment: string, now: int, allow: set<string>)
    requires Joins(before) && Joins(after) && Agree(before, after, now, allow)
    ensures HasContext(before, w, environment, now, allow) <==> HasContext(after, w, environment, now, allow)
  {}

  lemma RowsIncluded(before: Db, after: Db, now: int, allow: set<string>)
    requires Joins(before) && Joins(after) && Agree(before, after, now, allow)
    ensures Nameless(ServedRows(before, now, allow)) <= Nameless(ServedRows(after, now, allow))
  {}

  lemma CopyIncluded(before: Db, after: Db, k: nat, w: nat, now: int, allow: set<string>)
    requires Joins(before) && Joins(after) && Agree(before, after, now, allow)
    requires k < |before.rows| && NeedsCopy(before, k, w, now, allow)
    ensures CanJoin(before, k) && CopyFor(ConfigOf(before, k), w).(name := "") in Nameless(OAuthCopies(after, now, allow))
  {
    AgreeingContexts(before, after, w, before.rows[k].environment, now, allow);
    assert CanJoin(before, k) && CanJoin(after, k);
    assert NeedsCopy(after, k, w, now, allow) && w < |after.workspaces|;
    assert CopyFor(ConfigOf(after, k), w) in OAuthCopies(after, now, allow);
    assert CopyFor(ConfigOf(before, k), w).(name := "") == CopyFor(ConfigOf(after, k), w).(name := "");
  }

  lemma CopiesIncluded(before: Db, after: Db, now: int, allow: set<string>)
    requires Joins(before) && Joins(after) && Agree(before, after, now, allow)
    ensures Nameless(OAuthCopies(before, now, allow)) <= Nameless(OAuthCopies(after, now, allow))
  {
    forall c | c in Nameless(OAuthCopies(before, now, allow)) ensures c in Nameless(OAuthCopies(after, now, allow)) {
      var k: nat, w: nat :| k < |before.rows| && w < |before.workspaces| && NeedsCopy(before, k, w, now, allow)
        && c == CopyFor(ConfigOf(before, k), w).(name := "");
      CopyIncluded(before, after, k, w, now, allow);
    }
  }

  lemma AgreeingViews(before: Db, after: Db, now: int, allow: set<string>)
    requires Joins(before) && Joins(after) && Agree(before, after, now, allow)
    ensures Nameless(View(before, now, allow)) == Nameless(View(after, now, allow))
  {
    RowsIncluded(before, after, now, allow);
    RowsIncluded(after, before, now, allow);
    CopiesIncluded(before, after, now, allow);
    CopiesIncluded(after, before, now, allow);
    NamelessUnion(before, now, allow);
    NamelessUnion(after, now, allow);
  }

  lemma NamelessUnion(db: Db, now: int, allow: set<string>)
    requires Joins(db)
    ensures Nameless(View(db, now, allow)) == Nameless(ServedRows(db, now, allow)) + Nameless(OAuthCopies(db, now, allow))
  {}

  lemma SameRoutingFrom(parse: Parser, before: Db, after: Db)
    requires Inv(parse, before) && Inv(parse, after) && Evolves(before, after) && after.rows == before.rows
    requires Joins(before) && forall k: nat :: k < |before.rows| ==> Undisturbed(before, after, k)
    ensures Joins(after) && SameRouting(before, after)
  {
    RootedRowsJoin(after);
    forall now, allow ensures Nameless(View(before, now, allow)) == Nameless(View(after, now, allow)) {
      UndisturbedRowsAgree(before, after, now, allow);
      AgreeingViews(before, after, now, allow);
    }
  }

  /** Rows, proxies and workspaces as they were: the rows are undisturbed. */
  lemma UntouchedTables(before: Db, after: Db)
    requires Joins(before) && Evolves(before, after) && after.rows == before.rows
    requires forall p :: p in before.proxies ==> p in after.proxies && after.proxies[p].active == before.proxies[p].active
    requires before.workspaces <= after.workspaces
    requires LabRowsAreOpen(before.rows, before.workspaces)
    ensures forall k: nat :: k < |before.rows| ==> Undisturbed(before, after, k)
  {
    forall k: nat | k < |before.rows| ensures Undisturbed(before, after, k) {
      assert CanJoin(before, k);
    }
  }

  /** Disabling a workspace without active rows touches no row that is served. */
  lemma IdleWorkspaceDisturbsNothing(parse: Parser, before: Db, w: nat, after: Db)
    requires Inv(parse, before) && Joins(before) && w < |before.workspaces| && ActiveIn(before.rows, w) == []
    requires after.proxies == DeactivateProxies(before.proxies, before.workspaces[w].org)
    requires |after.workspaces| >= |before.workspaces|
    requires forall v :: 0 <= v < |before.workspaces| && v != w ==> after.workspaces[v] == before.workspaces[v]
    ensures forall k: nat :: k < |before.rows| ==> Undisturbed(before, after, k)
  {}

}
