/** The in-memory routing registry of `resolver.ts`: how a list of configurations
    is loaded, and how a host and a path are resolved against what was loaded. */
module Registry {
  import opened Schema
  import opened Seqs
  import opened Bundle
  import opened Endpoints
  import opened Loader

  datatype Key = WorkspaceKey(workspace: nat) | EnvironmentKey(environment: string)

  datatype Target = Target(key: Key, environment: string, workspace: Option<nat>)

  type Table = map<string, ProxyConfig>

  function KeyOf(c: ProxyConfig): Key {
    match c.workspace
    case Some(w) => WorkspaceKey(w)
    case None => EnvironmentKey(c.environment)
  }

  function TargetOf(c: ProxyConfig): Target {
    Target(KeyOf(c), c.environment, c.workspace)
  }

  function Prepared(c: ProxyConfig): ProxyConfig {
    c.(endpoints := SortEndpoints(c.endpoints))
  }

  /** Two configurations that can be loaded together. */
  predicate Compatible(c: ProxyConfig, d: ProxyConfig) {
    && (KeyOf(c) == KeyOf(d) ==> c.basePath != d.basePath)
    && (c.authority == d.authority ==> KeyOf(c) == KeyOf(d))
  }

  ghost predicate NoClash(configs: seq<ProxyConfig>) {
    forall i, j :: 0 <= i < j < |configs| && configs[i].active && configs[j].active ==> Compatible(configs[i], configs[j])
  }

  function Lookup(tables: map<Key, Table>, key: Key, basePath: string): Option<ProxyConfig> {
    if key in tables && basePath in tables[key] then Some(tables[key][basePath]) else None
  }

  ghost predicate HasEntry(configs: seq<ProxyConfig>, key: Key, basePath: string) {
    exists i :: 0 <= i < |configs| && configs[i].active && KeyOf(configs[i]) == key && configs[i].basePath == basePath
  }

  ghost predicate HasTarget(configs: seq<ProxyConfig>, a: Authority, t: Target) {
    exists i :: 0 <= i < |configs| && configs[i].active && configs[i].authority == a && TargetOf(configs[i]) == t
  }

  /** The tables hold every active configuration, prepared, under its key and base path, and nothing else. */
  ghost predicate TablesHold(tables: map<Key, Table>, configs: seq<ProxyConfig>) {
    && (forall i :: 0 <= i < |configs| && configs[i].active ==>
          Lookup(tables, KeyOf(configs[i]), configs[i].basePath) == Some(Prepared(configs[i])))
    && (forall key, basePath :: Lookup(tables, key, basePath).Some? ==> HasEntry(configs, key, basePath))
  }

  /** The hosts known are those of active configurations, each with the target of one of them. */
  ghost predicate RuntimesHold(runtimes: map<Authority, Target>, configs: seq<ProxyConfig>) {
    && (forall i :: 0 <= i < |configs| && configs[i].active ==>
          configs[i].authority in runtimes && runtimes[configs[i].authority].key == KeyOf(configs[i]))
    && (forall a :: a in runtimes ==> HasTarget(configs, a, runtimes[a]))
  }

  predicate Covers(basePath: string, path: string) {
    path == basePath || basePath + "/" <= path
  }

  /** A path's segments, split at every slash. */
  function Split(path: string): (r: seq<string>)
    ensures r != []
  {
    if path == "" then [""]
    else
      var rest := Split(path[1..]);
      if path[0] == '/' then [""] + rest else [[path[0]] + rest[0]] + rest[1..]
  }

  lemma EmptyFrontIff(path: string)
    ensures [""] <= Split(path) <==> path == "" || "/" <= path
  {
    assert [""] <= Split(path) <==> Split(path)[0] == "";
  }

  lemma SplitFurther(basePath: string, path: string)
    requires basePath != "" && path != ""
    ensures Split(basePath) <= Split(path) <==> basePath[0] == path[0] && Split(basePath[1..]) <= Split(path[1..])
  {
    var base, rest := Split(basePath[1..]), Split(path[1..]);
    HeadFirst(base, []);
    HeadFirst(rest, []);
    PrefixHeads(base[0], rest[0], base[1..], rest[1..]);
    PrefixHeads(Split(basePath)[0], Split(path)[0], Split(basePath)[1..], Split(path)[1..]);
    HeadFirst(Split(basePath), []);
    HeadFirst(Split(path), []);
    SameHeads(basePath[0], path[0], base[0], rest[0]);
  }

  lemma SameHeads(c: char, d: char, s: string, t: string)
    ensures [c] + s == [d] + t <==> c == d && s == t
  {
    assert ([c] + s)[1..] == s && ([d] + t)[1..] == t && ([c] + s)[0] == c && ([d] + t)[0] == d;
  }

  lemma PrefixHeads(a: string, b: string, s: seq<string>, t: seq<string>)
    ensures [a] + s <= [b] + t <==> a == b && s <= t
  {
    assert ([a] + s)[1..] == s && ([a] + s)[0] == a;
    if |s| <= |t| {
      assert ([b] + t)[..|s| + 1] == [b] + t[..|s|];
      assert ([b] + t[..|s|])[1..] == t[..|s|] && ([b] + t[..|s|])[0] == b;
    }
  }

  lemma SameFirst(c: char, rest: string, path: string)
    requires path != ""
    ensures Covers([c] + rest, path) <==> c == path[0] && Covers(rest, path[1..])
  {
    HeadFirst([c] + rest, "/");
    assert ([c] + rest)[1..] == rest && path == [path[0]] + path[1..];
  }

  /** A base path covers the paths that begin with its segments, whole segments only. */
  lemma {:induction false} CoversIff(basePath: string, path: string)
    ensures Covers(basePath, path) <==> Split(basePath) <= Split(path)
    decreases |basePath|
  {
    if basePath == "" {
      EmptyFront("/");
      EmptyFrontIff(path);
    } else if path == "" {
      assert |Split(basePath)| > 1 || Split(basePath)[0] != "";
    } else {
      CoversIff(basePath[1..], path[1..]);
      HeadFirst(basePath, []);
      SameFirst(basePath[0], basePath[1..], path);
      SplitFurther(basePath, path);
    }
  }

  /** A base path that can win: it covers the path and is not empty. */
  predicate Candidate(table: Table, basePath: string, path: string) {
    basePath in table && basePath != "" && Covers(basePath, path)
  }

  ghost predicate IsLongest(table: Table, basePath: string, path: string) {
    && Candidate(table, basePath, path)
    && forall other :: Candidate(table, other, path) ==> |other| <= |basePath|
  }

  /** What a lookup may return: nothing when no base path of the key is a candidate,
      otherwise the entry of a longest one. */
  ghost predicate ResolvesTo(tables: map<Key, Table>, key: Key, path: string, best: Option<ProxyConfig>) {
    if key !in tables then best.None?
    else match best
    case None => forall b :: !Candidate(tables[key], b, path)
    case Some(c) => exists b :: IsLongest(tables[key], b, path) && c == tables[key][b]
  }

  /** Covering base paths of the same length are the same. */
  lemma LongestIsUnique(a: string, b: string, path: string)
    requires Covers(a, path) && Covers(b, path) && |a| == |b|
    ensures a == b
  {
    assert path[..|a|] == a && path[..|b|] == b;
  }

  lemma EntriesGrow(configs: seq<ProxyConfig>, c: ProxyConfig, key: Key, basePath: string)
    ensures HasEntry(configs + [c], key, basePath)
       <==> HasEntry(configs, key, basePath) || (c.active && KeyOf(c) == key && c.basePath == basePath)
  {
    var all := configs + [c];
    assert all[|configs|] == c && forall i :: 0 <= i < |configs| ==> all[i] == configs[i];
  }

  lemma TargetsGrow(configs: seq<ProxyConfig>, c: ProxyConfig, a: Authority, t: Target)
    ensures HasTarget(configs + [c], a, t)
       <==> HasTarget(configs, a, t) || (c.active && c.authority == a && TargetOf(c) == t)
  {
    var all := configs + [c];
    assert all[|configs|] == c && forall i :: 0 <= i < |configs| ==> all[i] == configs[i];
  }

  function WithEntry(tables: map<Key, Table>, c: ProxyConfig): map<Key, Table> {
    tables[KeyOf(c) := (if KeyOf(c) in tables then tables[KeyOf(c)] else map[])[c.basePath := Prepared(c)]]
  }

  lemma LookupWithEntry(tables: map<Key, Table>, c: ProxyConfig, key: Key, basePath: string)
    ensures Lookup(WithEntry(tables, c), key, basePath)
         == if key == KeyOf(c) && basePath == c.basePath then Some(Prepared(c)) else Lookup(tables, key, basePath)
  {}

  lemma NextTables(tables: map<Key, Table>, configs: seq<ProxyConfig>, c: ProxyConfig)
    requires TablesHold(tables, configs) && c.active && Lookup(tables, KeyOf(c), c.basePath).None?
    ensures TablesHold(WithEntry(tables, c), configs + [c])
  {
    forall key, basePath | Lookup(WithEntry(tables, c), key, basePath).Some?
      ensures HasEntry(configs + [c], key, basePath)
    {
      LookupWithEntry(tables, c, key, basePath);
      EntriesGrow(configs, c, key, basePath);
    }
    forall i | 0 <= i < |configs| && configs[i].active
      ensures Lookup(WithEntry(tables, c), KeyOf(configs[i]), configs[i].basePath) == Some(Prepared(configs[i]))
    {
      LookupWithEntry(tables, c, KeyOf(configs[i]), configs[i].basePath);
    }
    LookupWithEntry(tables, c, KeyOf(c), c.basePath);
  }

  lemma NextRuntimes(runtimes: map<Authority, Target>, configs: seq<ProxyConfig>, c: ProxyConfig)
    requires RuntimesHold(runtimes, configs) && c.active
    requires c.authority in runtimes ==> runtimes[c.authority].key == KeyOf(c)
    ensures RuntimesHold(runtimes[c.authority := TargetOf(c)], configs + [c])
  {
    var after := runtimes[c.authority := TargetOf(c)];
    forall a | a in after ensures HasTarget(configs + [c], a, after[a]) {
      TargetsGrow(configs, c, a, after[a]);
    }
  }

  /** What has been loaded so far: a list without clashes, held by both maps. */
  ghost predicate Filled(tables: map<Key, Table>, runtimes: map<Authority, Target>, configs: seq<ProxyConfig>) {
    NoClash(configs) && TablesHold(tables, configs) && RuntimesHold(runtimes, configs)
  }

  lemma SkipInactive(tables: map<Key, Table>, runtimes: map<Authority, Target>, configs: seq<ProxyConfig>, c: ProxyConfig)
    requires Filled(tables, runtimes, configs) && !c.active
    ensures Filled(tables, runtimes, configs + [c])
  {
    SkipKeepsNoClash(configs, c);
    SkipKeepsTables(tables, configs, c);
    SkipKeepsRuntimes(runtimes, configs, c);
  }

  lemma SkipKeepsNoClash(configs: seq<ProxyConfig>, c: ProxyConfig)
    requires NoClash(configs) && !c.active
    ensures NoClash(configs + [c])
  {}

  lemma SkipKeepsTables(tables: map<Key, Table>, configs: seq<ProxyConfig>, c: ProxyConfig)
    requires TablesHold(tables, configs) && !c.active
    ensures TablesHold(tables, configs + [c])
  {
    forall key, basePath | Lookup(tables, key, basePath).Some? ensures HasEntry(configs + [c], key, basePath) {
      EntriesGrow(configs, c, key, basePath);
    }
  }

  lemma SkipKeepsRuntimes(runtimes: map<Authority, Target>, configs: seq<ProxyConfig>, c: ProxyConfig)
    requires RuntimesHold(runtimes, configs) && !c.active
    ensures RuntimesHold(runtimes, configs + [c])
  {
    forall a | a in runtimes ensures HasTarget(configs + [c], a, runtimes[a]) {
      TargetsGrow(configs, c, a, runtimes[a]);
    }
  }

  /** A configuration clashes with what is loaded exactly when one of the two refusals applies. */
  lemma RefusalMeansClash(tables: map<Key, Table>, runtimes: map<Authority, Target>, configs: seq<ProxyConfig>, c: ProxyConfig)
    requires Filled(tables, runtimes, configs) && c.active
    ensures NoClash(configs + [c])
       <==> (c.authority in runtimes ==> runtimes[c.authority].key == KeyOf(c)) && Lookup(tables, KeyOf(c), c.basePath).None?
  {
    var all := configs + [c];
    if c.authority in runtimes && runtimes[c.authority].key != KeyOf(c) {
      var i :| 0 <= i < |configs| && configs[i].active && configs[i].authority == c.authority
        && TargetOf(configs[i]) == runtimes[c.authority];
      assert !Compatible(all[i], all[|configs|]);
    } else if Lookup(tables, KeyOf(c), c.basePath).Some? {
      var i :| 0 <= i < |configs| && configs[i].active && KeyOf(configs[i]) == KeyOf(c) && configs[i].basePath == c.basePath;
      assert !Compatible(all[i], all[|configs|]);
    } else {
      forall i | 0 <= i < |configs| && configs[i].active ensures Compatible(configs[i], c) {
        assert Lookup(tables, KeyOf(configs[i]), configs[i].basePath) == Some(Prepared(configs[i]));
      }
    }
  }

  lemma FillOne(tables: map<Key, Table>, runtimes: map<Authority, Target>, configs: seq<ProxyConfig>, c: ProxyConfig)
    requires Filled(tables, runtimes, configs) && c.active
    requires c.authority in runtimes ==> runtimes[c.authority].key == KeyOf(c)
    requires Lookup(tables, KeyOf(c), c.basePath).None?
    ensures Filled(WithEntry(tables, c), runtimes[c.authority := TargetOf(c)], configs + [c])
  {
    RefusalMeansClash(tables, runtimes, configs, c);
    NextTables(tables, configs, c);
    NextRuntimes(runtimes, configs, c);
  }

  lemma ClashPersists(configs: seq<ProxyConfig>, n: nat)
    requires n <= |configs| && !NoClash(configs[..n])
    ensures !NoClash(configs)
  {}

  lemma NothingFilled()
    ensures Filled(map[], map[], [])
  {}

  predicate IsRefused(tables: map<Key, Table>, runtimes: map<Authority, Target>, c: ProxyConfig) {
    || (c.authority in runtimes && runtimes[c.authority].key != KeyOf(c))
    || Lookup(tables, KeyOf(c), c.basePath).Some?
  }

  /** One round of the loading loop. */
  lemma LoadStep(tables: map<Key, Table>, runtimes: map<Authority, Target>, configs: seq<ProxyConfig>, i: nat)
    requires i < |configs| && Filled(tables, runtimes, configs[..i])
    ensures !configs[i].active ==> Filled(tables, runtimes, configs[..i + 1])
    ensures configs[i].active && IsRefused(tables, runtimes, configs[i]) ==> !NoClash(configs)
    ensures configs[i].active && !IsRefused(tables, runtimes, configs[i]) ==>
              Filled(WithEntry(tables, configs[i]), runtimes[configs[i].authority := TargetOf(configs[i])], configs[..i + 1])
  {
    StepThrough(configs, i);
    if !configs[i].active {
      SkipInactive(tables, runtimes, configs[..i], configs[i]);
    } else if IsRefused(tables, runtimes, configs[i]) {
      RefusalMeansClash(tables, runtimes, configs[..i], configs[i]);
      ClashPersists(configs, i + 1);
    } else {
      FillOne(tables, runtimes, configs[..i], configs[i]);
    }
  }

  /** The body of the loading loop: one configuration is skipped, refused or entered. */
  method Register(tables: map<Key, Table>, runtimes: map<Authority, Target>, proxies: seq<ProxyConfig>, i: nat)
    returns (ok: bool, registry: map<Key, Table>, runtimesByAuthority: map<Authority, Target>)
    requires i < |proxies| && Filled(tables, runtimes, proxies[..i])
    ensures ok ==> Filled(registry, runtimesByAuthority, proxies[..i + 1])
    ensures !ok ==> !NoClash(proxies)
  {
    LoadStep(tables, runtimes, proxies, i);
    ok, registry, runtimesByAuthority := true, tables, runtimes;
    var proxy := proxies[i];
    if proxy.active {
      var key := KeyOf(proxy);
      if proxy.authority in runtimes && runtimes[proxy.authority].key != key {
        ok := false;
        return;
      }
      if Lookup(tables, key, proxy.basePath).Some? {
        ok := false;
        return;
      }
      var table := if key in tables then tables[key] else map[];
      runtimesByAuthority := runtimes[proxy.authority := TargetOf(proxy)];
      registry := tables[key := table[proxy.basePath := Prepared(proxy)]];
    }
  }

  predicate IsValid(c: ProxyConfig) {
    forall op :: op in c.endpoints ==> ValidatorAccepts(op, c.upstream)
  }

  /** `validateProxyConfiguration`. */
  method ValidateProxyConfiguration(proxies: seq<ProxyConfig>) returns (ok: bool)
    ensures ok <==> forall c :: c in proxies ==> IsValid(c)
  {
    for i := 0 to |proxies|
      invariant forall k :: 0 <= k < i ==> IsValid(proxies[k])
    {
      for j := 0 to |proxies[i].endpoints|
        invariant forall k :: 0 <= k < j ==> ValidatorAccepts(proxies[i].endpoints[k], proxies[i].upstream)
      {
        if !ValidatorAccepts(proxies[i].endpoints[j], proxies[i].upstream) {
          assert !IsValid(proxies[i]);
          return false;
        }
      }
    }
    ok := true;
  }

  class RoutingRegistry {
    var registry: map<Key, Table>
    var runtimesByAuthority: map<Authority, Target>
    var registryInitialized: bool

    constructor ()
      ensures registry == map[] && runtimesByAuthority == map[] && !registryInitialized
    {
      registry, runtimesByAuthority, registryInitialized := map[], map[], false;
    }

    /** `loadProxies`: candidates are filled row by row and swapped in at the end,
        so a refusal leaves what was serving untouched. */
    method LoadProxies(proxies: seq<ProxyConfig>) returns (ok: bool)
      modifies this
      ensures ok <==> NoClash(proxies)
      ensures ok ==> TablesHold(registry, proxies) && RuntimesHold(runtimesByAuthority, proxies) && registryInitialized
      ensures !ok ==> unchanged(this)
    {
      var candidateRegistry: map<Key, Table> := map[];
      var candidateRuntimes: map<Authority, Target> := map[];
      TakeAll(proxies);
      NothingFilled();
      ok := true;
      var i := 0;
      while i < |proxies|
        invariant 0 <= i <= |proxies|
        invariant unchanged(this)
        invariant Filled(candidateRegistry, candidateRuntimes, proxies[..i])
      {
        ok, candidateRegistry, candidateRuntimes := Register(candidateRegistry, candidateRuntimes, proxies, i);
        if !ok {
          return;
        }
        i := i + 1;
      }
      registry := candidateRegistry;
      runtimesByAuthority := candidateRuntimes;
      registryInitialized := true;
      ok := true;
    }

    /** What a gateway does with a fresh snapshot: validate all of it, then load it. */
    method ApplySnapshot(candidate: seq<ProxyConfig>) returns (ok: bool)
      modifies this
      ensures ok <==> NoClash(candidate) && forall c :: c in candidate ==> IsValid(c)
      ensures ok ==> TablesHold(registry, candidate) && RuntimesHold(runtimesByAuthority, candidate) && registryInitialized
      ensures !ok ==> unchanged(this)
    {
      ok := ValidateProxyConfiguration(candidate);
      if ok {
        ok := LoadProxies(candidate);
      }
    }

    /** `resolveProxy`, over the base paths of one table in whatever order the map yields them. */
    method ResolveProxy(key: Key, requestPath: string) returns (best: Option<ProxyConfig>)
      ensures ResolvesTo(registry, key, requestPath, best)
    {
      best := None;
      if key !in registry {
        return;
      }
      var table := registry[key];
      var bestMatchLength := 0;
      var remaining := table.Keys;
      while remaining != {}
        invariant remaining <= table.Keys
        invariant best.None? ==> bestMatchLength == 0 && forall b :: b !in remaining ==> !Candidate(table, b, requestPath)
        invariant best.Some? ==>
                    exists b :: b in table && b !in remaining && Candidate(table, b, requestPath)
                      && |b| == bestMatchLength && best == Some(table[b])
        invariant forall other :: other !in remaining && Candidate(table, other, requestPath) ==> |other| <= bestMatchLength
        decreases remaining
      {
        var basePath :| basePath in remaining;
        var matches := requestPath == basePath || basePath + "/" <= requestPath;
        if matches && |basePath| > bestMatchLength {
          best := Some(table[basePath]);
          bestMatchLength := |basePath|;
        }
        remaining := remaining - {basePath};
      }
    }

    /** `resolveRuntimeTarget`, given the authority already normalised. */
    method ResolveRuntimeTarget(authority: Authority) returns (target: Option<Target>)
      ensures target == if authority in runtimesByAuthority then Some(runtimesByAuthority[authority]) else None
    {
      target := if authority in runtimesByAuthority then Some(runtimesByAuthority[authority]) else None;
    }
  }
}
