/** From the ledger to the registry: when a load succeeds, and what it then routes. */
module Serving {
  import opened Schema
  import opened Seqs
  import opened Bundle
  import opened Ledger
  import opened LedgerInvariants
  import opened Loader
  import opened Coherence
  import opened Registry

  /** The database's unique index is on the origin as a string. A load takes no origin but an
      HTTPS one in normal form, and two of those that differ differ in host or port. */
  ghost predicate HostsAreDistinct(environments: map<string, Environment>) {
    forall e, f :: e in environments && f in environments && e != f ==>
      environments[e].host != environments[f].host || environments[e].port != environments[f].port
  }

  ghost predicate AllCompatible(view: set<ProxyConfig>) {
    forall c, d :: c in view && d in view && c != d ==> Compatible(c, d)
  }

  // --------------------------------------------------- when a registry can be built

  /** Whatever order the rows come in, they load together or not at all. */
  lemma OrderDoesNotMatter(configs: seq<ProxyConfig>, view: set<ProxyConfig>)
    requires Lists(configs, view) && forall c :: c in view ==> c.active
    ensures NoClash(configs) <==> AllCompatible(view)
  {}

  /** Served rows j and k of one workspace, deployed to different environments. */
  predicate AreApart(db: Db, j: nat, k: nat, now: int, allow: set<string>) {
    && j < |db.rows| && k < |db.rows| && IsServed(db, j, now, allow) && IsServed(db, k, now, allow)
    && db.rows[j].workspace.Some? && db.rows[j].workspace == db.rows[k].workspace
    && db.rows[j].environment != db.rows[k].environment
  }

  /** Row j is served in workspace w, which is also lent the OAuth row k. */
  predicate SharesWithCopy(db: Db, j: nat, k: nat, w: nat, now: int, allow: set<string>) {
    NeedsCopy(db, k, w, now, allow) && IsServed(db, j, now, allow) && db.rows[j].workspace == Some(w)
  }

  /** Workspace w is lent OAuth rows j and k of different environments. */
  predicate CopiesAreApart(db: Db, j: nat, k: nat, w: nat, now: int, allow: set<string>) {
    && NeedsCopy(db, j, w, now, allow) && NeedsCopy(db, k, w, now, allow)
    && db.rows[j].environment != db.rows[k].environment
  }

  predicate PathsDiffer(db: Db, j: nat, k: nat)
    requires j < |db.rows| && k < |db.rows|
  {
    BasePathOf(db.proxies, db.rows[j]) != BasePathOf(db.proxies, db.rows[k])
  }

  /** What uniqueness per environment does not give a workspace, whose registry key
      spans environments: its rows, and the OAuth entries it is lent, all have
      different base paths. */
  ghost predicate LabScopesAreSound(db: Db, now: int, allow: set<string>) {
    && (forall j: nat, k: nat | AreApart(db, j, k, now, allow) :: PathsDiffer(db, j, k))
    && (forall j: nat, k: nat, w: nat | SharesWithCopy(db, j, k, w, now, allow) :: PathsDiffer(db, j, k))
    && (forall j: nat, k: nat, w: nat | CopiesAreApart(db, j, k, w, now, allow) :: PathsDiffer(db, j, k))
  }

  lemma RowsAreCompatible(parse: Parser, db: Db, j: nat, k: nat, now: int, allow: set<string>)
    requires Inv(parse, db) && HostsAreDistinct(db.environments) && LabScopesAreSound(db, now, allow)
    requires Joins(db) && j != k && IsServed(db, j, now, allow) && IsServed(db, k, now, allow)
    ensures CanJoin(db, j) && CanJoin(db, k) && Compatible(ConfigOf(db, j), ConfigOf(db, k))
  {
    assert CanJoin(db, j) && CanJoin(db, k);
    if db.rows[j].workspace.Some? && db.rows[j].workspace == db.rows[k].workspace
       && db.rows[j].environment != db.rows[k].environment {
      assert AreApart(db, j, k, now, allow);
    }
    if j < k {
      assert BasePathOf(db.proxies, db.rows[j]) == Some(ConfigOf(db, j).basePath);
    } else {
      assert BasePathOf(db.proxies, db.rows[k]) == Some(ConfigOf(db, k).basePath);
    }
  }

  lemma SlotHasOneRow(rows: seq<Deployment>, j: nat, k: nat)
    requires SlotsAreUnique(rows) && j < |rows| && k < |rows|
    requires rows[j].status.Active? && rows[k].status.Active?
    requires rows[j].proxy == rows[k].proxy && rows[j].environment == rows[k].environment
    ensures j == k
  {}

  lemma RowAndCopyAreCompatible(db: Db, j: nat, k: nat, w: nat, now: int, allow: set<string>)
    requires LabScopesAreSound(db, now, allow)
    requires Joins(db) && IsServed(db, j, now, allow) && NeedsCopy(db, k, w, now, allow)
    ensures CanJoin(db, j) && CanJoin(db, k)
    ensures Compatible(ConfigOf(db, j), CopyFor(ConfigOf(db, k), w)) && Compatible(CopyFor(ConfigOf(db, k), w), ConfigOf(db, j))
  {
    assert CanJoin(db, j) && CanJoin(db, k);
    if db.rows[j].workspace == Some(w) { assert SharesWithCopy(db, j, k, w, now, allow); }
  }

  lemma CopiesAreCompatible(parse: Parser, db: Db, j: nat, k: nat, v: nat, w: nat, now: int, allow: set<string>)
    requires Inv(parse, db) && LabScopesAreSound(db, now, allow)
    requires Joins(db) && NeedsCopy(db, j, v, now, allow) && NeedsCopy(db, k, w, now, allow) && (j, v) != (k, w)
    ensures CanJoin(db, j) && CanJoin(db, k) && Compatible(CopyFor(ConfigOf(db, j), v), CopyFor(ConfigOf(db, k), w))
  {
    assert CanJoin(db, j) && CanJoin(db, k);
    if v == w && db.rows[j].environment == db.rows[k].environment {
      SlotHasOneRow(db.rows, j, k);
    } else if v == w {
      assert CopiesAreApart(db, j, k, w, now, allow);
    }
  }

  /** Where an entry of the view comes from. */
  lemma EntryHasOrigin(db: Db, c: ProxyConfig, now: int, allow: set<string>)
    requires Joins(db) && c in View(db, now, allow)
    ensures c.deployment.Row? ==>
              var k := c.deployment.id; IsServed(db, k, now, allow) && CanJoin(db, k) && c == ConfigOf(db, k)
    ensures c.deployment.LabCopy? ==>
              var k, w := c.deployment.id, c.deployment.workspace;
              NeedsCopy(db, k, w, now, allow) && CanJoin(db, k) && c == CopyFor(ConfigOf(db, k), w)
  {}

  lemma EntriesAreCompatible(parse: Parser, db: Db, c: ProxyConfig, d: ProxyConfig, now: int, allow: set<string>)
    requires Inv(parse, db) && HostsAreDistinct(db.environments) && Joins(db) && LabScopesAreSound(db, now, allow)
    requires c in View(db, now, allow) && d in View(db, now, allow) && c != d
    ensures Compatible(c, d)
  {
    EntryHasOrigin(db, c, now, allow);
    EntryHasOrigin(db, d, now, allow);
    match (c.deployment, d.deployment)
    case (Row(j), Row(k)) => RowsAreCompatible(parse, db, j, k, now, allow);
    case (Row(j), LabCopy(k, w)) => RowAndCopyAreCompatible(db, j, k, w, now, allow);
    case (LabCopy(k, w), Row(j)) => RowAndCopyAreCompatible(db, j, k, w, now, allow);
    case (LabCopy(j, v), LabCopy(k, w)) => CopiesAreCompatible(parse, db, j, k, v, w, now, allow);
  }

  lemma ServedIsViewed(db: Db, k: nat, now: int, allow: set<string>)
    requires Joins(db) && IsServed(db, k, now, allow)
    ensures CanJoin(db, k) && ConfigOf(db, k) in View(db, now, allow)
  {}

  lemma CopyIsViewed(db: Db, k: nat, w: nat, now: int, allow: set<string>)
    requires Joins(db) && NeedsCopy(db, k, w, now, allow)
    ensures CanJoin(db, k) && CopyFor(ConfigOf(db, k), w) in View(db, now, allow)
  {}

  lemma CompatibleScopesAreSound(db: Db, now: int, allow: set<string>)
    requires Joins(db) && AllCompatible(View(db, now, allow))
    ensures LabScopesAreSound(db, now, allow)
  {
    forall j: nat, k: nat | AreApart(db, j, k, now, allow)
      ensures PathsDiffer(db, j, k)
    {
      ServedIsViewed(db, j, now, allow);
      ServedIsViewed(db, k, now, allow);
      assert Compatible(ConfigOf(db, j), ConfigOf(db, k));
    }
    forall j: nat, k: nat, w: nat | SharesWithCopy(db, j, k, w, now, allow)
      ensures PathsDiffer(db, j, k)
    {
      ServedIsViewed(db, j, now, allow);
      CopyIsViewed(db, k, w, now, allow);
      assert Compatible(ConfigOf(db, j), CopyFor(ConfigOf(db, k), w));
    }
    forall j: nat, k: nat, w: nat | CopiesAreApart(db, j, k, w, now, allow)
      ensures PathsDiffer(db, j, k)
    {
      CopyIsViewed(db, j, w, now, allow);
      CopyIsViewed(db, k, w, now, allow);
      assert Compatible(CopyFor(ConfigOf(db, j), w), CopyFor(ConfigOf(db, k), w));
    }
  }

  lemma ViewedAreActive(db: Db, now: int, allow: set<string>)
    requires Joins(db)
    ensures forall c :: c in View(db, now, allow) ==> c.active
  {}

  /** In every reachable ledger the loaded rows build a registry exactly when the
      lab scopes are sound; the ledger's own invariants settle everything else. */
  lemma RegistryBuildsIff(parse: Parser, db: Db, now: int, allow: set<string>, configs: seq<ProxyConfig>)
    requires Inv(parse, db) && HostsAreDistinct(db.environments) && Joins(db) && Lists(configs, View(db, now, allow))
    ensures NoClash(configs) <==> LabScopesAreSound(db, now, allow)
  {
    ViewedAreActive(db, now, allow);
    OrderDoesNotMatter(configs, View(db, now, allow));
    if LabScopesAreSound(db, now, allow) {
      forall c, d | c in View(db, now, allow) && d in View(db, now, allow) && c != d ensures Compatible(c, d) {
        EntriesAreCompatible(parse, db, c, d, now, allow);
      }
    } else if AllCompatible(View(db, now, allow)) {
      CompatibleScopesAreSound(db, now, allow);
    }
  }

  predicate AreActive(db: Db, j: nat, k: nat) {
    j < |db.rows| && k < |db.rows| && db.rows[j].status.Active? && db.rows[k].status.Active?
  }

  /** Each workspace keeps to one environment and leaves the OAuth base path alone. */
  ghost predicate LabsKeepToOneEnvironment(db: Db) {
    forall j: nat, k: nat | AreActive(db, j, k) && db.rows[j].workspace.Some? ::
      && (db.rows[k].workspace == db.rows[j].workspace ==> db.rows[k].environment == db.rows[j].environment)
      && (db.rows[k].workspace.None? && db.rows[k].proxy == OAUTH_PROXY ==> PathsDiffer(db, j, k))
  }

  lemma TidyCopiesAreTogether(db: Db, j: nat, k: nat, w: nat, now: int, allow: set<string>)
    requires LabsKeepToOneEnvironment(db) && NeedsCopy(db, j, w, now, allow) && NeedsCopy(db, k, w, now, allow)
    ensures db.rows[j].environment == db.rows[k].environment
  {}

  /** For every clock and allowlist such a ledger builds; one without lab rows is a special case. */
  lemma TidyLabsAlwaysBuild(parse: Parser, db: Db, now: int, allow: set<string>, configs: seq<ProxyConfig>)
    requires Inv(parse, db) && HostsAreDistinct(db.environments) && Joins(db) && Lists(configs, View(db, now, allow))
    requires LabsKeepToOneEnvironment(db)
    ensures NoClash(configs)
  {
    forall j: nat, k: nat, w: nat | NeedsCopy(db, j, w, now, allow) && NeedsCopy(db, k, w, now, allow)
      ensures !CopiesAreApart(db, j, k, w, now, allow)
    {
      TidyCopiesAreTogether(db, j, k, w, now, allow);
    }
    forall j: nat, k: nat ensures !AreApart(db, j, k, now, allow) {
      assert AreApart(db, j, k, now, allow) ==> AreActive(db, j, k);
    }
    forall j: nat, k: nat, w: nat | SharesWithCopy(db, j, k, w, now, allow) ensures PathsDiffer(db, j, k) {
      assert AreActive(db, j, k);
    }
    RegistryBuildsIff(parse, db, now, allow, configs);
  }

  /** In every run that has used the standard scope only, every load builds a registry,
      whatever the clock, the allowlist and the order of the rows. */
  lemma ReachableStandardLedgersBuild(
    parse: Parser, seed: Db, steps: seq<Step>, now: int, allow: set<string>, configs: seq<ProxyConfig>)
    requires IsSeed(seed) && HostsAreDistinct(seed.environments) && RunIsPermitted(parse, seed, steps)
    requires forall k :: 0 <= k < |Run(seed, steps).rows| ==> Run(seed, steps).rows[k].workspace.None?
    requires Lists(configs, View(Run(seed, steps), now, allow))
    ensures NoClash(configs)
  {
    var db := Run(seed, steps);
    RunKeepsInv(parse, seed, steps);
    RunEvolves(parse, seed, steps, 0);
    InvJoins(parse, db);
    TidyLabsAlwaysBuild(parse, db, now, allow, configs);
  }

  lemma DeployedRow(db: Db, i: DeployInput, now: int, version: nat)
    requires PlanDeploy(db, i, now).Ok?
    ensures var after := Deploy(db, i, now, version).db;
            && |after.rows| == |db.rows| + 1
            && after.rows[|db.rows|] == NewRow(i, PlanDeploy(db, i, now).value)
            && (forall k :: 0 <= k < |db.rows| && db.rows[k].environment != i.environment ==> after.rows[k] == db.rows[k])
            && after.(rows := db.rows, audit := db.audit, changes := db.changes) == db
  {}

  /** The same base path deployed to a second region of a workspace: every check of
      the deploy passes, and from then on no load that sees both rows can succeed. */
  lemma SecondRegionBreaksEveryLoad(
    parse: Parser, db: Db, i: DeployInput, k: nat, now: int, version: nat, allow: set<string>, configs: seq<ProxyConfig>)
    requires Inv(parse, db) && HostsAreDistinct(db.environments) && PlanDeploy(db, i, now).Ok?
    requires IsServed(db, k, now, allow) && db.rows[k].workspace == i.workspace && i.workspace.Some?
    requires db.rows[k].environment != i.environment && (allow == {} || i.environment in allow)
    requires BasePathOf(db.proxies, db.rows[k]) == Some(RevisionOf(db.proxies, i.proxy, i.revision).basePath)
    requires db.proxies[i.proxy].active
    requires var after := Deploy(db, i, now, version).db;
             Joins(after) && Lists(configs, View(after, now, allow))
    ensures !NoClash(configs)
  {
    var after := Deploy(db, i, now, version).db;
    DeployedRow(db, i, now, version);
    DeployKeepsInv(parse, db, i, now, version);
    var w := i.workspace.value;
    assert db.workspaces[w].org in db.orgs && db.orgs[db.workspaces[w].org].LabOrg?;
    assert IsServed(after, |db.rows|, now, allow);
    assert after.rows[k] == db.rows[k] && IsServed(after, k, now, allow);
    assert AreApart(after, k, |db.rows|, now, allow);
    RegistryBuildsIff(parse, after, now, allow, configs);
  }

  // ------------------------------------------------------------ what it routes

  predicate Offers(c: ProxyConfig, key: Key, path: string) {
    KeyOf(c) == key && c.basePath != "" && Covers(c.basePath, path)
  }

  /** The declared route: the longest base path of the key that covers the path. */
  ghost predicate Routes(view: set<ProxyConfig>, key: Key, path: string, r: Option<ProxyConfig>) {
    match r
    case None => forall c :: c in view ==> !Offers(c, key, path)
    case Some(p) =>
      exists c :: c in view && Offers(c, key, path) && p == Prepared(c)
        && forall d :: d in view && Offers(d, key, path) ==> |d.basePath| <= |c.basePath|
  }

  /** There is one declared route at most, so no order of the rows can matter. */
  lemma RouteIsUnique(view: set<ProxyConfig>, key: Key, path: string, r: Option<ProxyConfig>, s: Option<ProxyConfig>)
    requires AllCompatible(view) && Routes(view, key, path, r) && Routes(view, key, path, s)
    ensures r == s
  {
    if r.Some? && s.Some? {
      var c :| c in view && Offers(c, key, path) && r.value == Prepared(c)
        && forall d :: d in view && Offers(d, key, path) ==> |d.basePath| <= |c.basePath|;
      var d :| d in view && Offers(d, key, path) && s.value == Prepared(d)
        && forall e :: e in view && Offers(e, key, path) ==> |e.basePath| <= |d.basePath|;
      LongestIsUnique(c.basePath, d.basePath, path);
      assert c == d || Compatible(c, d);
    }
  }

  /** What the registry's lookup returns is the declared route. */
  lemma LookupIsDeclared(
    tables: map<Key, Table>, configs: seq<ProxyConfig>, view: set<ProxyConfig>, key: Key, path: string, r: Option<ProxyConfig>)
    requires TablesHold(tables, configs) && Lists(configs, view) && forall c :: c in view ==> c.active
    requires ResolvesTo(tables, key, path, r)
    ensures Routes(view, key, path, r)
  {
    forall c | c in view && KeyOf(c) == key
      ensures key in tables && c.basePath in tables[key] && tables[key][c.basePath] == Prepared(c)
    {
      var i :| 0 <= i < |configs| && configs[i] == c;
      assert Lookup(tables, KeyOf(configs[i]), configs[i].basePath) == Some(Prepared(configs[i]));
    }
    if r.Some? {
      var b :| IsLongest(tables[key], b, path) && r == Some(tables[key][b]);
      assert Lookup(tables, key, b).Some?;
      var i :| 0 <= i < |configs| && configs[i].active && KeyOf(configs[i]) == key && configs[i].basePath == b;
      assert configs[i] in view && Offers(configs[i], key, path);
      forall d | d in view && Offers(d, key, path) ensures |d.basePath| <= |b| {
        assert Candidate(tables[key], d.basePath, path);
      }
    } else {
      forall c | c in view ensures !Offers(c, key, path) {
        if Offers(c, key, path) { assert Candidate(tables[key], c.basePath, path); }
      }
    }
  }

  /** A host is known exactly when some entry has it, and leads to that entry's key. */
  lemma HostIsDeclared(runtimes: map<Authority, Target>, configs: seq<ProxyConfig>, view: set<ProxyConfig>, a: Authority)
    requires RuntimesHold(runtimes, configs) && Lists(configs, view) && forall c :: c in view ==> c.active
    ensures a in runtimes <==> exists c :: c in view && c.authority == a
    ensures forall c :: c in view && c.authority == a ==> a in runtimes && runtimes[a].key == KeyOf(c)
  {
    forall c | c in view && c.authority == a ensures a in runtimes && runtimes[a].key == KeyOf(c) {
      var i :| 0 <= i < |configs| && configs[i] == c;
    }
    if a in runtimes {
      var i :| 0 <= i < |configs| && configs[i].active && configs[i].authority == a && TargetOf(configs[i]) == runtimes[a];
      assert configs[i] in view;
    }
  }

  // ------------------------------------------------------- no row fails to load

  /** An operation the loader refuses although compiler and deploy accepted it. */
  predicate IsUnloadable(op: Operation) {
    op.mode.Forward? && (op.targetPath == Some("") || HasTerminal(Enabled(op.policies)))
  }

  lemma {:induction false} OperationsLoadIff(
    parse: Parser, ops: seq<Operation>, systemManaged: bool, upstream: Option<string>)
    requires ParserIsIdempotent(parse) && UpstreamSuffices(ops, upstream)
    requires forall k :: 0 <= k < |ops| ==> WellCompiled(parse, ops[k], systemManaged)
    ensures LoadOperations(parse, ops, upstream)
         == if exists op :: op in ops && IsUnloadable(op) then None else Some(ops)
    ensures (forall op :: op in ops ==> ValidatorAccepts(op, upstream)) <==> LoadOperations(parse, ops, upstream).Some?
    ensures !systemManaged ==> forall op :: op in ops && IsUnloadable(op) ==> op.targetPath == Some("")
  {
    if ops != [] {
      assert forall op :: op in ops <==> op == ops[0] || op in ops[1..];
      assert [ops[0]] + ops[1..] == ops;
      OperationsLoadIff(parse, ops[1..], systemManaged, upstream);
      CompiledOperationLoadsIff(parse, ops[0], systemManaged, upstream);
    }
  }

  /** From bundle to runtime: a row of a reachable ledger is loaded with its operations
      exactly as compiled, and passes the validator, unless its revision has an
      unloadable operation; a business revision has one only where a target path is empty. */
  lemma DeployedRevisionLoadsIff(parse: Parser, db: Db, k: nat)
    requires Inv(parse, db) && ParserIsIdempotent(parse) && Joins(db) && k < |db.rows|
    ensures CanJoin(db, k)
    ensures var ops := ConfigOf(db, k).endpoints;
            && LoadRow(parse, db, k) == (if exists op :: op in ops && IsUnloadable(op) then None else Some(ConfigOf(db, k)))
            && ((forall op :: op in ops ==> ValidatorAccepts(op, db.rows[k].upstream)) <==> LoadRow(parse, db, k).Some?)
            && (!ConfigOf(db, k).systemManaged ==> forall op :: op in ops && IsUnloadable(op) ==> op.targetPath == Some(""))
  {
    assert CanJoin(db, k) && RowIsRooted(db.rows[k], db.proxies, db.environments, db.workspaces);
    var proxy := db.proxies[db.rows[k].proxy];
    assert RevisionsAreCompiled(parse, proxy);
    OperationsLoadIff(parse, ConfigOf(db, k).endpoints, proxy.systemManaged, db.rows[k].upstream);
  }
}
