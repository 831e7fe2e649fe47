/** A run from the seeded tables to a ledger that no gateway can load. */
module TwoRegions {
  import opened Schema
  import opened Seqs
  import opened Whitespace
  import opened Bundle
  import opened Ledger
  import opened LedgerInvariants
  import opened Loader
  import opened Coherence
  import opened Registry
  import opened Serving

  const SEED: Db := Db(
    map[],
    map["e1" := Environment(Qual, "r1", "h1", ""), "e2" := Environment(Qual, "r2", "h2", "")],
    map[], [], [], [], [])

  const OWNER: Principal := Principal("issuer", "subject")

  function Into(environment: string): DeployInput {
    DeployInput("p", 1, environment, Some(Upstream("http://upstream", true)), Some(0), false)
  }

  const API: ApiOperation := ApiOperation("list", GET, "/items")
  const OPERATION: Operation := Operation("list", GET, Forward, "/items", Some("/items"), [])
  const BUNDLE: CompiledBundle := CompiledBundle("/a", [OPERATION])

  const CREATE: Step := Step(OpCreateWorkspace(OWNER, "lab", 0), 1)
  const NAME: Step := Step(OpCreateProxy("p", "p", "lab", false), 1)
  const IMPORT: Step := Step(OpImportRevision("p", BUNDLE, false), 1)
  const DEPLOY: Step := Step(OpDeploy(Into("e1"), 0), 1)

  /** A personal workspace, a proxy in it with one revision, and its first deployment. */
  const FIRST_REGION: seq<Step> := [CREATE, NAME, IMPORT, DEPLOY]

  // ------------------------------------------------------------------ step by step

  const LAB: Workspace := Workspace(OWNER, "lab", Open, 0, WORKSPACE_TTL_MS)

  function Tables(proxies: map<string, Proxy>, rows: seq<Deployment>, changes: seq<Change>, audit: seq<AuditEvent>): Db {
    Db(map["lab" := LabOrg], SEED.environments, proxies, rows, [LAB], changes, audit)
  }

  function Lab(revisions: seq<Revision>): map<string, Proxy> {
    map["p" := Proxy("p", true, false, "lab", revisions)]
  }

  const CREATED: seq<AuditEvent> := [OtherAudit("labWorkspace.create")]
  const NAMED: seq<AuditEvent> := CREATED + [OtherAudit("proxy.create")]
  const IMPORTED: seq<AuditEvent> := NAMED + [OtherAudit("proxyRevision.import")]

  function Revisions(): seq<Revision> {
    [] + [Revision("/a", [OPERATION])]
  }

  const GATEWAY: seq<(string, Json)> := [("apiVersion", Str("gateway.platform/v1")), ("basePath", Str("/a"))]

  lemma OneOperationCompiles(parse: Parser, api: ApiOperation, op: Operation)
    requires api.operationId !in INHERITED && api.path != "" && api.path[0] == '/'
    requires op == Operation(api.operationId, api.verb, Forward, api.path, Some(api.path), [])
    ensures CompileOperations(parse, [api], [], [], false) == Ok([op])
  {
    UnlistedCompilesIff(parse, api, [], [], false);
    NextCompiled(parse, [api], 0, [], [], false, []);
    assert [api][..0] == [] && [api][..0 + 1] == [api] && [] + [op] == [op];
  }

  lemma OneOperationIsInspected(api: ApiOperation)
    requires Trim(api.operationId) == api.operationId != ""
    ensures Inspect([api]) == Ok([api])
  {
    InspectIff([api]);
  }

  /** A gateway document that gives no more than a base path. */
  lemma ShortDocumentCompiles(parse: Parser, apis: seq<ApiOperation>, gateway: seq<(string, Json)>, base: string, ops: seq<Operation>)
    requires Get(gateway, "apiVersion") == Some(Str("gateway.platform/v1"))
    requires NormalizeBasePath(Get(gateway, "basePath")) == Ok(base)
    requires Get(gateway, "defaults").None? && Get(gateway, "operations").None?
    requires Inspect(apis) == Ok(apis) && CompileOperations(parse, apis, [], [], false) == Ok(ops)
    ensures Compile(parse, apis, gateway, false) == Ok(CompiledBundle(base, ops))
  {}

  lemma NotInherited()
    ensures "list" !in INHERITED
  {
    forall i | 0 <= i < |INHERITED| ensures INHERITED[i] != "list" {
      assert |INHERITED[i]| > 4;
    }
  }

  lemma DocumentIsShort()
    ensures Get(GATEWAY, "apiVersion") == Some(Str("gateway.platform/v1"))
    ensures NormalizeBasePath(Get(GATEWAY, "basePath")) == Ok("/a")
    ensures Get(GATEWAY, "defaults").None? && Get(GATEWAY, "operations").None?
  {
    assert GATEWAY[1..][0] == ("basePath", Str("/a")) && GATEWAY[1..][1..] == [];
    assert WithoutTrailingSlashes("/a") == "/a";
  }

  lemma GatewayCompiles(parse: Parser)
    ensures Compile(parse, [API], GATEWAY, false) == Ok(BUNDLE)
  {
    NotInherited();
    assert Trim("list") == "list";
    DocumentIsShort();
    OneOperationIsInspected(API);
    OneOperationCompiles(parse, API, OPERATION);
    ShortDocumentCompiles(parse, [API], GATEWAY, "/a", [OPERATION]);
  }

  lemma OneMoreStep(parse: Parser, db: Db, steps: seq<Step>, next: Step)
    requires RunIsPermitted(parse, db, steps) && IsPermitted(parse, Run(db, steps), next.op)
    ensures RunIsPermitted(parse, db, steps + [next])
    ensures Run(db, steps + [next]) == Execute(Run(db, steps), next.op, next.first).db
  {
    assert (steps + [next])[..|steps + [next]| - 1] == steps;
  }

  const ROW: Deployment := Deployment("p", 1, "e1", Some(0), Some("http://upstream"), Active)

  const MADE: Db := Tables(map[], [], [], CREATED)
  const WITH_PROXY: Db := Tables(Lab([]), [], [], NAMED)
  const WITH_REVISION: Db := Tables(Lab(Revisions()), [], [], IMPORTED)

  const LEDGER: Db :=
    Tables(Lab(Revisions()), [ROW], [Change(1, DeploymentCreated)], IMPORTED + [DeployAudit(0, None, false)])

  /** The transaction is permitted on these tables and leads to those. */
  ghost predicate Leads(parse: Parser, db: Db, step: Step, after: Db) {
    IsPermitted(parse, db, step.op) && Execute(db, step.op, step.first).db == after
  }

  lemma CreateLeads(parse: Parser)
    ensures Leads(parse, SEED, CREATE, MADE)
  {
    assert [] + [LAB] == [LAB];
  }

  lemma NameLeads(parse: Parser)
    ensures Leads(parse, MADE, NAME, WITH_PROXY)
  {}

  lemma CompiledIsPermitted(
    parse: Parser, db: Db, proxy: string, bundle: CompiledBundle, apis: seq<ApiOperation>, gateway: seq<(string, Json)>)
    requires proxy in db.proxies && !db.proxies[proxy].systemManaged && Compile(parse, apis, gateway, false) == Ok(bundle)
    ensures IsPermitted(parse, db, OpImportRevision(proxy, bundle, false))
  {}

  lemma ImportIsPermitted(parse: Parser)
    ensures IsPermitted(parse, WITH_PROXY, IMPORT.op)
  {
    GatewayCompiles(parse);
    assert "p" in Lab([]) && !Lab([])["p"].systemManaged;
    CompiledIsPermitted(parse, WITH_PROXY, "p", BUNDLE, [API], GATEWAY);
  }

  lemma ImportAdds()
    ensures Execute(WITH_PROXY, IMPORT.op, IMPORT.first).db == WITH_REVISION
  {}

  lemma ImportLeads(parse: Parser)
    ensures Leads(parse, WITH_PROXY, IMPORT, WITH_REVISION)
  {
    ImportIsPermitted(parse);
    ImportAdds();
  }

  lemma FirstPlan()
    ensures PlanDeploy(WITH_REVISION, Into("e1"), 0) == Ok(DeployPlan(Some("http://upstream"), None, false))
  {
    assert WithoutTrailingSlashes("http://upstream") == "http://upstream";
  }

  lemma DeployLeads(parse: Parser)
    ensures Leads(parse, WITH_REVISION, DEPLOY, LEDGER)
  {
    FirstPlan();
    assert [] + [ROW] == [ROW];
  }

  /** The run so far is permitted and has come to these tables. */
  ghost predicate Reaches(parse: Parser, steps: seq<Step>, db: Db) {
    RunIsPermitted(parse, SEED, steps) && Run(SEED, steps) == db
  }

  lemma ReachesNext(parse: Parser, steps: seq<Step>, db: Db, next: Step, longer: seq<Step>, after: Db)
    requires Reaches(parse, steps, db) && longer == steps + [next] && Leads(parse, db, next, after)
    ensures Reaches(parse, longer, after)
  {
    OneMoreStep(parse, SEED, steps, next);
  }

  lemma RunsThere(parse: Parser)
    ensures Reaches(parse, FIRST_REGION, LEDGER)
  {
    assert Reaches(parse, [], SEED);
    CreateLeads(parse);
    ReachesNext(parse, [], SEED, CREATE, [CREATE], MADE);
    NameLeads(parse);
    ReachesNext(parse, [CREATE], MADE, NAME, [CREATE, NAME], WITH_PROXY);
    ImportLeads(parse);
    ReachesNext(parse, [CREATE, NAME], WITH_PROXY, IMPORT, [CREATE, NAME, IMPORT], WITH_REVISION);
    DeployLeads(parse);
    ReachesNext(parse, [CREATE, NAME, IMPORT], WITH_REVISION, DEPLOY, FIRST_REGION, LEDGER);
  }

  lemma SecondRegionIsAccepted()
    ensures IsServed(LEDGER, 0, 0, {}) && PlanDeploy(LEDGER, Into("e2"), 0).Ok?
    ensures BasePathOf(LEDGER.proxies, LEDGER.rows[0]) == Some("/a")
  {
    assert WithoutTrailingSlashes("http://upstream") == "http://upstream";
  }

  // ------------------------------------------------------------------- main results

  /** In every reachable ledger: a deploy of a base path to a second region of its workspace
      is what no load that sees both rows survives. */
  lemma SecondRegionBreaksReachable(
    parse: Parser, seed: Db, steps: seq<Step>, i: DeployInput, k: nat, now: int, version: nat, allow: set<string>,
    configs: seq<ProxyConfig>)
    requires IsSeed(seed) && HostsAreDistinct(seed.environments) && RunIsPermitted(parse, seed, steps)
    requires var db := Run(seed, steps);
             && PlanDeploy(db, i, now).Ok? && IsServed(db, k, now, allow)
             && db.rows[k].workspace == i.workspace && i.workspace.Some?
             && db.rows[k].environment != i.environment && (allow == {} || i.environment in allow)
             && BasePathOf(db.proxies, db.rows[k]) == Some(RevisionOf(db.proxies, i.proxy, i.revision).basePath)
             && db.proxies[i.proxy].active
             && Lists(configs, View(Deploy(db, i, now, version).db, now, allow))
    ensures !NoClash(configs)
  {
    var db := Run(seed, steps);
    RunKeepsInv(parse, seed, steps);
    RunEvolves(parse, seed, steps, 0);
    DeployKeepsInv(parse, db, i, now, version);
    InvJoins(parse, Deploy(db, i, now, version).db);
    SecondRegionBreaksEveryLoad(parse, db, i, k, now, version, allow, configs);
  }

  /** And such a ledger is four transactions away from the seed. */
  lemma TwoRegionsBreakEveryLoad(parse: Parser, version: nat, configs: seq<ProxyConfig>)
    requires Lists(configs, View(Deploy(LEDGER, Into("e2"), 0, version).db, 0, {}))
    ensures Reaches(parse, FIRST_REGION, LEDGER) && PlanDeploy(LEDGER, Into("e2"), 0).Ok? && !NoClash(configs)
  {
    RunsThere(parse);
    SecondRegionIsAccepted();
    SecondRegionBreaksReachable(parse, SEED, FIRST_REGION, Into("e2"), 0, 0, version, {}, configs);
  }
}
