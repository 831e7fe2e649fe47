/** Loading and applying a snapshot, step by step. */
module Snapshots {
  import opened Schema
  import opened Seqs
  import opened Bundle
  import opened Ledger
  import opened LedgerInvariants
  import opened Loader
  import opened Coherence
  import opened Registry
  import opened Serving

  datatype Context = Context(workspace: nat, environment: string)

  /** The ids the query selects. */
  ghost function ServedIds(db: Db, now: int, allow: set<string>): set<nat> {
    set k: nat | k < |db.rows| && IsServed(db, k, now, allow)
  }

  /** Some revision being served has an operation the loader throws on. */
  ghost predicate SomeRowFails(parse: Parser, db: Db, now: int, allow: set<string>) {
    exists k: nat :: IsServed(db, k, now, allow) && CanJoin(db, k) && LoadRow(parse, db, k).None?
  }

  /** The mapping over the query's rows; None where one of them throws. */
  method MapRows(parse: Parser, db: Db, ids: seq<nat>) returns (r: Option<seq<ProxyConfig>>)
    requires Joins(db) && forall i :: 0 <= i < |ids| ==> ids[i] < |db.rows| && CanJoin(db, ids[i])
    ensures r.None? <==> exists i :: 0 <= i < |ids| && LoadRow(parse, db, ids[i]).None?
    ensures r.Some? ==> |r.value| == |ids| && forall i :: 0 <= i < |ids| ==> LoadRow(parse, db, ids[i]) == Some(r.value[i])
  {
    var configs := [];
    var i := 0;
    while i < |ids|
      invariant 0 <= i <= |ids| && |configs| == i
      invariant forall k :: 0 <= k < i ==> LoadRow(parse, db, ids[k]) == Some(configs[k])
    {
      var config := LoadRow(parse, db, ids[i]);
      if config.None? {
        return None;
      }
      configs := configs + [config.value];
      i := i + 1;
    }
    r := Some(configs);
  }

  /** The map of lab contexts, in insertion order. */
  method CollectContexts(db: Db, ids: seq<nat>) returns (contexts: seq<Context>)
    requires forall i :: 0 <= i < |ids| ==> ids[i] < |db.rows|
    ensures forall i, j :: 0 <= i < j < |contexts| ==> contexts[i] != contexts[j]
    ensures forall c :: c in contexts <==> InContext(db, ids, c)
  {
    contexts := [];
    var i := 0;
    while i < |ids|
      invariant 0 <= i <= |ids|
      invariant forall i, j :: 0 <= i < j < |contexts| ==> contexts[i] != contexts[j]
      invariant forall c :: c in contexts <==> InContext(db, ids[..i], c)
    {
      ghost var before := contexts;
      StepThrough(ids, i);
      var row := db.rows[ids[i]];
      if row.workspace.Some? {
        var context := Context(row.workspace.value, row.environment);
        if context !in contexts {
          contexts := contexts + [context];
        }
      }
      forall c ensures InContext(db, ids[..i + 1], c) <==> InContext(db, ids[..i], c) || IsIn(db, ids[i], c) {
        ContextsGrow(db, ids[..i], ids[i], c);
      }
      i := i + 1;
    }
    assert ids[..i] == ids;
  }

  predicate IsIn(db: Db, id: nat, c: Context)
    requires id < |db.rows|
  {
    db.rows[id].workspace == Some(c.workspace) && db.rows[id].environment == c.environment
  }

  predicate InContext(db: Db, ids: seq<nat>, c: Context)
    requires forall i :: 0 <= i < |ids| ==> ids[i] < |db.rows|
  {
    exists i :: 0 <= i < |ids| && IsIn(db, ids[i], c)
  }

  lemma ContextsGrow(db: Db, ids: seq<nat>, id: nat, c: Context)
    requires forall i :: 0 <= i < |ids| ==> ids[i] < |db.rows|
    requires id < |db.rows|
    ensures InContext(db, ids + [id], c) <==> InContext(db, ids, c) || IsIn(db, id, c)
  {
    var all := ids + [id];
    assert all[|ids|] == id && forall i :: 0 <= i < |ids| ==> all[i] == ids[i];
  }

  /** `configs.find`: the platform's own OAuth entry of an environment. */
  function FindOAuth(configs: seq<ProxyConfig>, environment: string): (r: Option<ProxyConfig>)
    ensures r.Some? ==> r.value in configs && IsOAuth(r.value, environment)
    ensures r.None? ==> forall c :: c in configs ==> !IsOAuth(c, environment)
  {
    if configs == [] then None
    else if IsOAuth(configs[0], environment) then Some(configs[0])
    else FindOAuth(configs[1..], environment)
  }

  predicate IsOAuth(c: ProxyConfig, environment: string) {
    c.id == OAUTH_PROXY && c.environment == environment && c.workspace.None?
  }

  /** `c` is the OAuth entry lent to a context. */
  ghost predicate IsLentTo(db: Db, c: ProxyConfig, context: Context, now: int, allow: set<string>) {
    && c.deployment.LabCopy?
    && var k := c.deployment.id;
    && NeedsCopy(db, k, context.workspace, now, allow) && db.rows[k].environment == context.environment
    && CanJoin(db, k) && c == CopyFor(ConfigOf(db, k), context.workspace)
  }

  /** `extra` holds what is lent to the contexts, each entry once. */
  ghost predicate Lent(
    db: Db, contexts: seq<Context>, extra: seq<ProxyConfig>, now: int, allow: set<string>)
    requires Joins(db)
  {
    && (forall c :: c in extra ==> LentToOne(db, c, contexts, now, allow))
    && (forall k: nat, w: nat | NeedsCopy(db, k, w, now, allow) && Context(w, db.rows[k].environment) in contexts ::
          CanJoin(db, k) && CopyFor(ConfigOf(db, k), w) in extra)
    && (forall i, j :: 0 <= i < j < |extra| ==> extra[i] != extra[j])
  }

  ghost predicate LentToOne(db: Db, c: ProxyConfig, contexts: seq<Context>, now: int, allow: set<string>) {
    exists m :: 0 <= m < |contexts| && IsLentTo(db, c, contexts[m], now, allow)
  }

  lemma LentToMore(db: Db, c: ProxyConfig, contexts: seq<Context>, context: Context, now: int, allow: set<string>)
    requires Joins(db)
    ensures LentToOne(db, c, contexts + [context], now, allow)
       <==> LentToOne(db, c, contexts, now, allow) || IsLentTo(db, c, context, now, allow)
  {
    var all := contexts + [context];
    assert all[|contexts|] == context && forall i :: 0 <= i < |contexts| ==> all[i] == contexts[i];
  }

  lemma FindsTheServedRow(
    db: Db, base: seq<ProxyConfig>, extra: seq<ProxyConfig>, contexts: seq<Context>, environment: string,
    now: int, allow: set<string>)
    requires Joins(db) && Lists(base, ServedRows(db, now, allow)) && Lent(db, contexts, extra, now, allow)
    ensures var found := FindOAuth(base + extra, environment);
            && (found.None? ==> forall k: nat :: IsServed(db, k, now, allow) ==> !IsOAuthRow(db, k, environment))
            && (found.Some? ==>
                  && found.value.deployment.Row?
                  && var k := found.value.deployment.id;
                  && IsServed(db, k, now, allow) && IsOAuthRow(db, k, environment)
                  && CanJoin(db, k) && found.value == ConfigOf(db, k))
  {
    var found := FindOAuth(base + extra, environment);
    if found.None? {
      forall k: nat | IsServed(db, k, now, allow) ensures !IsOAuthRow(db, k, environment) {
        assert CanJoin(db, k) && ConfigOf(db, k) in ServedRows(db, now, allow);
        assert ConfigOf(db, k) in base + extra;
      }
    } else {
      assert found.value !in extra;
      assert found.value in base;
    }
  }

  lemma NothingIsLent(db: Db, contexts: seq<Context>, extra: seq<ProxyConfig>, context: Context, now: int, allow: set<string>)
    requires Joins(db) && Lent(db, contexts, extra, now, allow)
    requires forall k: nat :: IsServed(db, k, now, allow) ==> !IsOAuthRow(db, k, context.environment)
    ensures Lent(db, contexts + [context], extra, now, allow)
  {
    forall c | c in extra ensures LentToOne(db, c, contexts + [context], now, allow) {
      LentToMore(db, c, contexts, context, now, allow);
    }
  }

  lemma OneMoreIsLent(
    db: Db, contexts: seq<Context>, extra: seq<ProxyConfig>, context: Context, k: nat, now: int, allow: set<string>)
    requires Joins(db) && SlotsAreUnique(db.rows) && Lent(db, contexts, extra, now, allow) && context !in contexts
    requires NeedsCopy(db, k, context.workspace, now, allow) && db.rows[k].environment == context.environment
    ensures CanJoin(db, k)
    ensures Lent(db, contexts + [context], extra + [CopyFor(ConfigOf(db, k), context.workspace)], now, allow)
  {
    assert CanJoin(db, k);
    var copy := CopyFor(ConfigOf(db, k), context.workspace);
    assert IsLentTo(db, copy, context, now, allow);
    forall c | c in extra + [copy] ensures LentToOne(db, c, contexts + [context], now, allow) {
      LentToMore(db, c, contexts, context, now, allow);
    }
    forall j: nat, w: nat
      | NeedsCopy(db, j, w, now, allow) && Context(w, db.rows[j].environment) in contexts + [context]
      ensures CanJoin(db, j) && CopyFor(ConfigOf(db, j), w) in extra + [copy]
    {
      if Context(w, db.rows[j].environment) == context {
        SlotHasOneRow(db.rows, j, k);
      }
    }
    assert copy !in extra;
  }

  /** One turn of the lending loop. */
  lemma LendStep(
    db: Db, base: seq<ProxyConfig>, contexts: seq<Context>, extra: seq<ProxyConfig>, n: nat, now: int, allow: set<string>)
    requires Joins(db) && SlotsAreUnique(db.rows) && Lists(base, ServedRows(db, now, allow))
    requires n < |contexts| && contexts[n] !in contexts[..n] && Lent(db, contexts[..n], extra, now, allow)
    requires HasContext(db, contexts[n].workspace, contexts[n].environment, now, allow)
    ensures var oauth := FindOAuth(base + extra, contexts[n].environment);
            && (oauth.None? ==> Lent(db, contexts[..n + 1], extra, now, allow))
            && (oauth.Some? ==>
                  && oauth.value.deployment.Row?
                  && Lent(db, contexts[..n + 1], extra + [CopyFor(oauth.value, contexts[n].workspace)], now, allow))
  {
    var context := contexts[n];
    StepThrough(contexts, n);
    FindsTheServedRow(db, base, extra, contexts[..n], context.environment, now, allow);
    var oauth := FindOAuth(base + extra, context.environment);
    if oauth.Some? {
      OneMoreIsLent(db, contexts[..n], extra, context, oauth.value.deployment.id, now, allow);
    } else {
      NothingIsLent(db, contexts[..n], extra, context, now, allow);
    }
  }

  /** The contexts of served lab rows, none twice. */
  ghost predicate AreContexts(db: Db, contexts: seq<Context>, now: int, allow: set<string>) {
    && (forall i, j :: 0 <= i < j < |contexts| ==> contexts[i] != contexts[j])
    && (forall c: Context :: c in contexts <==> HasContext(db, c.workspace, c.environment, now, allow))
  }

  lemma NextContext(db: Db, contexts: seq<Context>, n: nat, now: int, allow: set<string>)
    requires AreContexts(db, contexts, now, allow) && n < |contexts|
    ensures contexts[n] !in contexts[..n] && HasContext(db, contexts[n].workspace, contexts[n].environment, now, allow)
  {}

  lemma NothingLentYet(db: Db, contexts: seq<Context>, now: int, allow: set<string>)
    requires contexts == []
    requires Joins(db)
    ensures Lent(db, contexts, [], now, allow)
  {}

  /** The loop that lends the platform's OAuth entry to each lab context. */
  method LendOAuth(db: Db, base: seq<ProxyConfig>, contexts: seq<Context>, ghost now: int, ghost allow: set<string>)
    returns (configs: seq<ProxyConfig>, ghost extra: seq<ProxyConfig>)
    requires Joins(db) && SlotsAreUnique(db.rows) && Lists(base, ServedRows(db, now, allow))
    requires AreContexts(db, contexts, now, allow)
    ensures configs == base + extra && Lent(db, contexts, extra, now, allow)
  {
    configs, extra := base, [];
    EmptyFront(base);
    TakeAll(contexts);
    NothingLentYet(db, contexts[..0], now, allow);
    var n := 0;
    while n < |contexts|
      invariant 0 <= n <= |contexts|
      invariant configs == base + extra && Lent(db, contexts[..n], extra, now, allow)
    {
      NextContext(db, contexts, n, now, allow);
      LendStep(db, base, contexts, extra, n, now, allow);
      var oauth := FindOAuth(configs, contexts[n].environment);
      if oauth.Some? {
        var copy := CopyFor(oauth.value, contexts[n].workspace);
        Associate(base, extra, [copy]);
        configs := configs + [copy];
        extra := extra + [copy];
      }
      n := n + 1;
    }
  }

  lemma ServedRowsAreMapped(parse: Parser, db: Db, ids: seq<nat>, base: seq<ProxyConfig>, now: int, allow: set<string>)
    requires Inv(parse, db) && ParserIsIdempotent(parse) && Joins(db) && Lists(ids, ServedIds(db, now, allow))
    requires |base| == |ids|
    requires forall i :: 0 <= i < |ids| ==>
               ids[i] < |db.rows| && CanJoin(db, ids[i]) && LoadRow(parse, db, ids[i]) == Some(base[i])
    ensures Lists(base, ServedRows(db, now, allow))
  {
    forall i | 0 <= i < |ids| ensures ids[i] in ServedIds(db, now, allow) && base[i] == ConfigOf(db, ids[i]) {
      DeployedRevisionLoadsIff(parse, db, ids[i]);
    }
    forall c | c in ServedRows(db, now, allow) ensures c in base {
      var k: nat :| k < |db.rows| && IsServed(db, k, now, allow) && c == ConfigOf(db, k);
      assert k in ServedIds(db, now, allow);
      var i :| 0 <= i < |ids| && ids[i] == k;
      assert base[i] == c;
    }
  }

  lemma ContextsAreServed(db: Db, ids: seq<nat>, c: Context, now: int, allow: set<string>)
    requires Lists(ids, ServedIds(db, now, allow)) && forall i :: 0 <= i < |ids| ==> ids[i] < |db.rows|
    ensures InContext(db, ids, c) <==> HasContext(db, c.workspace, c.environment, now, allow)
  {
    if InContext(db, ids, c) {
      var i :| 0 <= i < |ids| && IsIn(db, ids[i], c);
      assert ids[i] in ServedIds(db, now, allow);
    }
    if HasContext(db, c.workspace, c.environment, now, allow) {
      var j: nat :| j < |db.rows| && IsServed(db, j, now, allow)
        && db.rows[j].workspace == Some(c.workspace) && db.rows[j].environment == c.environment;
      assert j in ServedIds(db, now, allow);
      var i :| 0 <= i < |ids| && ids[i] == j;
      assert IsIn(db, ids[i], c);
    }
  }

  lemma WholeView(
    db: Db, base: seq<ProxyConfig>, extra: seq<ProxyConfig>, contexts: seq<Context>, now: int, allow: set<string>)
    requires Joins(db) && Lists(base, ServedRows(db, now, allow)) && Lent(db, contexts, extra, now, allow)
    requires forall c: Context :: c in contexts <==> HasContext(db, c.workspace, c.environment, now, allow)
    ensures Lists(base + extra, View(db, now, allow))
  {
    forall c | c in extra ensures c in OAuthCopies(db, now, allow) {
      assert LentToOne(db, c, contexts, now, allow);
    }
    forall c | c in OAuthCopies(db, now, allow) ensures c in extra {
      var k: nat, w: nat :| k < |db.rows| && w < |db.workspaces| && NeedsCopy(db, k, w, now, allow)
        && c == CopyFor(ConfigOf(db, k), w);
      assert Context(w, db.rows[k].environment) in contexts;
    }
    assert forall c :: c in ServedRows(db, now, allow) ==> c.deployment.Row?;
    assert forall c :: c in OAuthCopies(db, now, allow) ==> c.deployment.LabCopy?;
    ListsTogether(base, extra, ServedRows(db, now, allow), OAuthCopies(db, now, allow));
  }

  /** `loadProxiesFromDatabase`, given the rows its query selected, in whatever order.
      It throws exactly when a served revision has an unloadable operation, and
      otherwise lists the view. */
  method LoadProxiesFromDatabase(parse: Parser, db: Db, ids: seq<nat>, ghost now: int, ghost allow: set<string>)
    returns (r: Option<seq<ProxyConfig>>)
    requires Inv(parse, db) && ParserIsIdempotent(parse) && Joins(db) && Lists(ids, ServedIds(db, now, allow))
    ensures r.None? <==> SomeRowFails(parse, db, now, allow)
    ensures r.Some? ==> Lists(r.value, View(db, now, allow))
  {
    forall i | 0 <= i < |ids| ensures ids[i] < |db.rows| && CanJoin(db, ids[i]) && IsServed(db, ids[i], now, allow) {
      assert ids[i] in ServedIds(db, now, allow);
    }
    var base := MapRows(parse, db, ids);
    if base.None? {
      return None;
    }
    assert !SomeRowFails(parse, db, now, allow) by {
      forall k: nat | IsServed(db, k, now, allow) && CanJoin(db, k) ensures LoadRow(parse, db, k).Some? {
        assert k in ServedIds(db, now, allow);
      }
    }
    ServedRowsAreMapped(parse, db, ids, base.value, now, allow);
    var contexts := CollectContexts(db, ids);
    forall c: Context ensures c in contexts <==> HasContext(db, c.workspace, c.environment, now, allow) {
      ContextsAreServed(db, ids, c, now, allow);
    }
    var configs, extra := LendOAuth(db, base.value, contexts, now, allow);
    WholeView(db, base.value, extra, contexts, now, allow);
    r := Some(configs);
  }

  /** Both halves of a reload succeed on a state: no served revision is unloadable,
      and the lab scopes are sound. */
  ghost predicate Reloadable(parse: Parser, db: Db, now: int, allow: set<string>) {
    !SomeRowFails(parse, db, now, allow) && LabScopesAreSound(db, now, allow)
  }

  lemma LoadedViewIsValid(parse: Parser, db: Db, now: int, allow: set<string>)
    requires Inv(parse, db) && ParserIsIdempotent(parse) && Joins(db) && !SomeRowFails(parse, db, now, allow)
    ensures forall c :: c in View(db, now, allow) ==> IsValid(c)
  {
    forall c | c in View(db, now, allow) ensures IsValid(c) {
      EntryHasOrigin(db, c, now, allow);
      DeployedRevisionLoadsIff(parse, db, c.deployment.id);
    }
  }

  /** One reload, from the query's rows to the swapped registry. It takes effect
      exactly when the state is reloadable, whatever order the rows come in, and
      otherwise leaves the registry alone. */
  method Reload(
    registry: RoutingRegistry, parse: Parser, db: Db, ids: seq<nat>, ghost now: int, ghost allow: set<string>)
    returns (ok: bool, ghost configs: seq<ProxyConfig>)
    requires Inv(parse, db) && ParserIsIdempotent(parse) && HostsAreDistinct(db.environments)
    requires Joins(db) && Lists(ids, ServedIds(db, now, allow))
    modifies registry
    ensures ok <==> Reloadable(parse, db, now, allow)
    ensures ok ==> Lists(configs, View(db, now, allow))
    ensures ok ==> TablesHold(registry.registry, configs) && RuntimesHold(registry.runtimesByAuthority, configs)
    ensures !ok ==> unchanged(registry)
  {
    configs := [];
    var snapshot := LoadProxiesFromDatabase(parse, db, ids, now, allow);
    if snapshot.None? {
      return false, [];
    }
    configs := snapshot.value;
    LoadedViewIsValid(parse, db, now, allow);
    RegistryBuildsIff(parse, db, now, allow, configs);
    ok := registry.ApplySnapshot(snapshot.value);
  }
}
