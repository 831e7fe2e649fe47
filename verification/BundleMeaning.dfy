/** Which bundles the compiler accepts, and what it makes of them: said over the documents'
    entries, without the compiler's passes. */
module BundleMeaning {
  import opened Schema
  import opened Seqs
  import opened Templates
  import opened Whitespace
  import opened Bundle

  // ------------------------------------------------------------------- policy lists

  const AUTHENTICATION_NAMES: seq<string> := ["api-key-auth", "oauth-access-token", "mtls-auth"]
  const BUSINESS_NAMES: seq<string> := ["api-key-auth", "oauth-access-token", "mtls-auth", "rate-limit"]
  const TERMINAL_NAMES: seq<string> := ["oauth-token", "jwks-endpoint"]

  /** The type an entry of a policy list names. */
  function NameOfEntry(entry: Json): Option<string> {
    if entry.Obj? && Get(entry.fields, "type").Some? && Get(entry.fields, "type").value.Str?
    then Some(Get(entry.fields, "type").value.s) else None
  }

  predicate IsOn(entry: Json)
    requires entry.Obj?
  {
    Get(entry.fields, "enabled") == None || Get(entry.fields, "enabled") == Some(Bool(true))
  }

  /** An entry: of a type that is allowed, switched by a boolean if at all, with a
      configuration the type's schema admits. */
  predicate EntryIsValid(parse: Parser, entry: Json, systemManaged: bool) {
    && NameOfEntry(entry).Some?
    && var name := NameOfEntry(entry).value;
    && (name in BUSINESS_NAMES || (systemManaged && name in TERMINAL_NAMES))
    && (Get(entry.fields, "enabled").Some? ==> Get(entry.fields, "enabled").value.Bool?)
    && TypeNamed(name).Some? && parse(TypeNamed(name).value, Get(entry.fields, "config")).Some?
  }

  predicate AuthenticatesAt(items: seq<Json>, i: nat) {
    && i < |items| && NameOfEntry(items[i]).Some? && NameOfEntry(items[i]).value in AUTHENTICATION_NAMES
    && IsOn(items[i])
  }

  function AuthenticatingAt(items: seq<Json>): set<nat> {
    set i: nat | i < |items| && AuthenticatesAt(items, i)
  }

  predicate EntriesAreValid(parse: Parser, items: seq<Json>, systemManaged: bool) {
    forall i :: 0 <= i < |items| ==> EntryIsValid(parse, items[i], systemManaged)
  }

  /** A list: all entries valid, one authentication in force at most, and for business
      proxies exactly one. */
  predicate ListIsValid(parse: Parser, value: Option<Json>, systemManaged: bool) {
    value.Some? ==>
      && value.value.Arr?
      && EntriesAreValid(parse, value.value.items, systemManaged)
      && |AuthenticatingAt(value.value.items)| <= 1
      && (!systemManaged ==> |AuthenticatingAt(value.value.items)| == 1)
  }

  /** The policy of an entry: numbered by its place, on unless switched off, with the
      configuration as its schema reads it. */
  predicate IsPolicyOf(parse: Parser, policy: Policy, entry: Json, place: nat) {
    && NameOfEntry(entry).Some? && TypeNamed(NameOfEntry(entry).value) == Some(policy.kind)
    && policy.order == place && policy.enabled == IsOn(entry)
    && parse(policy.kind, Get(entry.fields, "config")) == Some(policy.config)
  }

  predicate ArePoliciesOf(parse: Parser, policies: seq<Policy>, items: seq<Json>) {
    |policies| == |items| && forall i :: 0 <= i < |items| ==> IsPolicyOf(parse, policies[i], items[i], i + 1)
  }

  lemma TypesAreNamed(name: string)
    ensures TypeNamed(name).Some? && IsAuthentication(TypeNamed(name).value) <==> name in AUTHENTICATION_NAMES
    ensures TypeNamed(name).Some? && IsBusiness(TypeNamed(name).value) <==> name in BUSINESS_NAMES
    ensures TypeNamed(name).Some? && IsTerminal(TypeNamed(name).value) <==> name in TERMINAL_NAMES
  {}

  lemma EntryCompilesIff(parse: Parser, entry: Json, place: nat, systemManaged: bool)
    ensures var compiled := CompilePolicy(parse, entry, place, systemManaged);
            && (compiled.Ok? <==> EntryIsValid(parse, entry, systemManaged))
            && (compiled.Ok? ==> IsPolicyOf(parse, compiled.value, entry, place))
  {
    if NameOfEntry(entry).Some? { TypesAreNamed(NameOfEntry(entry).value); }
  }

  lemma OneMoreEntry(parse: Parser, front: seq<Policy>, last: Policy, items: seq<Json>)
    requires items != [] && ArePoliciesOf(parse, front, items[..|items| - 1])
    requires IsPolicyOf(parse, last, items[|items| - 1], |items|)
    ensures ArePoliciesOf(parse, front + [last], items)
  {
    forall i | 0 <= i < |items| - 1 ensures IsPolicyOf(parse, front[i], items[i], i + 1) {
      assert items[..|items| - 1][i] == items[i];
    }
  }

  lemma OneMoreIsValid(parse: Parser, items: seq<Json>, systemManaged: bool)
    requires items != []
    ensures EntriesAreValid(parse, items, systemManaged)
       <==> EntriesAreValid(parse, items[..|items| - 1], systemManaged) && EntryIsValid(parse, items[|items| - 1], systemManaged)
  {
    forall i | 0 <= i < |items| - 1 ensures items[..|items| - 1][i] == items[i] {}
  }

  lemma {:induction false} EachCompilesIff(parse: Parser, items: seq<Json>, systemManaged: bool)
    ensures var compiled := CompileEach(parse, items, systemManaged);
            && (compiled.Ok? <==> EntriesAreValid(parse, items, systemManaged))
            && (compiled.Ok? ==> ArePoliciesOf(parse, compiled.value, items))
    decreases |items|
  {
    if items != [] {
      var n := |items| - 1;
      EachCompilesIff(parse, items[..n], systemManaged);
      EntryCompilesIff(parse, items[n], n + 1, systemManaged);
      OneMoreIsValid(parse, items, systemManaged);
      var front, last := CompileEach(parse, items[..n], systemManaged), CompilePolicy(parse, items[n], n + 1, systemManaged);
      if front.Ok? && last.Ok? { OneMoreEntry(parse, front.value, last.value, items); }
    }
  }

  lemma EnabledLast(policies: seq<Policy>, last: Policy)
    ensures Enabled(policies + [last]) == Enabled(policies) + if last.enabled then [last.kind] else []
    decreases |policies|
  {
    if policies == [] {
      assert policies + [last] == [last] && [last][1..] == [];
    } else {
      HeadFirst(policies, [last]);
      EnabledLast(policies[1..], last);
      Associate(if policies[0].enabled then [policies[0].kind] else [], Enabled(policies[1..]), if last.enabled then [last.kind] else []);
    }
  }

  lemma AuthenticationsLast(types: seq<PolicyType>, last: PolicyType)
    ensures Authentications(types + [last]) == Authentications(types) + if IsAuthentication(last) then 1 else 0
    decreases |types|
  {
    if types == [] {
      assert types + [last] == [last] && [last][1..] == [];
    } else {
      HeadFirst(types, [last]);
      AuthenticationsLast(types[1..], last);
    }
  }

  lemma AuthenticatingLast(items: seq<Json>)
    requires items != []
    ensures var n := |items| - 1;
            && AuthenticatingAt(items) == AuthenticatingAt(items[..n]) + (if AuthenticatesAt(items, n) then {n} else {})
            && n !in AuthenticatingAt(items[..n])
  {
    var n := |items| - 1;
    forall i: nat | i < n ensures AuthenticatesAt(items, i) <==> AuthenticatesAt(items[..n], i) {}
  }

  /** The compiler's count is the number of entries that authenticate. */
  lemma {:induction false} CountIsOfEntries(parse: Parser, policies: seq<Policy>, items: seq<Json>)
    requires ArePoliciesOf(parse, policies, items)
    ensures Authentications(Enabled(policies)) == |AuthenticatingAt(items)|
    decreases |items|
  {
    if items == [] {
      assert AuthenticatingAt(items) == {};
    } else {
      var n := |items| - 1;
      CountIsOfEntries(parse, policies[..n], items[..n]);
      AuthenticatingLast(items);
      SplitLast(policies);
      EnabledLast(policies[..n], policies[n]);
      LastCounts(Enabled(policies[..n]), policies[n]);
      assert IsPolicyOf(parse, policies[n], items[n], n + 1);
      TypesAreNamed(NameOfEntry(items[n]).value);
    }
  }

  lemma LastCounts(types: seq<PolicyType>, last: Policy)
    ensures Authentications(types + if last.enabled then [last.kind] else [])
         == Authentications(types) + if last.enabled && IsAuthentication(last.kind) then 1 else 0
  {
    AuthenticationsLast(types, last.kind);
    EmptyFront(types);
  }

  /** A policy list compiles exactly when it is valid, to the policies of its entries. */
  lemma ListCompilesIff(parse: Parser, value: Option<Json>, systemManaged: bool)
    ensures var compiled := CompilePolicies(parse, value, systemManaged);
            && (compiled.Ok? <==> ListIsValid(parse, value, systemManaged))
            && (compiled.Ok? ==> ArePoliciesOf(parse, compiled.value, if value.Some? then value.value.items else []))
  {
    if value.Some? && value.value.Arr? {
      EachCompilesIff(parse, value.value.items, systemManaged);
      var each := CompileEach(parse, value.value.items, systemManaged);
      if each.Ok? { CountIsOfEntries(parse, each.value, value.value.items); }
    }
  }

  // --------------------------------------------------------------------- the base path

  predicate IsBasePath(value: Option<Json>) {
    && value.Some? && value.value.Str? && value.value.s != "" && value.value.s[0] == '/'
    && forall c :: c in value.value.s ==> c !in "?#{}"
  }

  /** A base path begins with a slash and has no query, fragment or parameter; it is kept up
      to its last character that is no slash, one slash alone excepted. */
  lemma BasePathIsAcceptedIff(value: Option<Json>)
    ensures var normalized := NormalizeBasePath(value);
            && (normalized.Ok? <==> IsBasePath(value))
            && (normalized.Ok? ==>
                  if value.value.s == "/" then normalized.value == "/" else
                    && normalized.value <= value.value.s
                    && (normalized.value != "" ==> normalized.value[|normalized.value| - 1] != '/')
                    && forall k :: |normalized.value| <= k < |value.value.s| ==> value.value.s[k] == '/')
  {
    if value.Some? && value.value.Str? {
      SlashesAreCut(value.value.s);
      forall c | c in "?#{}" ensures c in value.value.s <==> exists k :: 0 <= k < |value.value.s| && value.value.s[k] == c {}
    }
  }

  // ---------------------------------------------------------------------- operations

  function Members(value: Option<Json>): seq<(string, Json)> {
    if value.Some? && value.value.Obj? then value.value.fields else []
  }

  function Items(value: Option<Json>): seq<Json> {
    if value.Some? && value.value.Arr? then value.value.items else []
  }

  predicate IsLocal(members: seq<(string, Json)>, systemManaged: bool) {
    systemManaged && Get(members, "mode") == Some(Str("local"))
  }

  /** The target an operation's entry gives, or its own path. */
  function TargetOf(members: seq<(string, Json)>, path: string): string {
    if Get(members, "targetPath").Some? && Get(members, "targetPath").value.Str?
    then Get(members, "targetPath").value.s else path
  }

  /** A target is empty, or begins with a slash and has no parameter that the path lacks. */
  predicate IsTarget(path: string, target: string) {
    target == "" || (target[0] == '/' && forall name :: name in BraceNames(target) ==> name in BraceNames(path))
  }

  /** An operation's own policy list, or the defaults. */
  function ListOf(members: seq<(string, Json)>, defaults: Option<Json>): Option<Json> {
    if Get(members, "policies").Some? then Get(members, "policies") else defaults
  }

  predicate TerminatesAt(items: seq<Json>, i: nat) {
    && i < |items| && NameOfEntry(items[i]).Some? && NameOfEntry(items[i]).value in TERMINAL_NAMES
    && IsOn(items[i])
  }

  predicate SomeTerminates(items: seq<Json>) {
    exists i :: 0 <= i < |items| && TerminatesAt(items, i)
  }

  /** The operation's own entry is an object, or there is none and its id is no inherited name. */
  predicate EntryIsObject(overrides: seq<(string, Json)>, operationId: string) {
    var entry := Get(overrides, operationId);
    if entry.Some? then entry.value.Obj? else operationId !in INHERITED
  }

  predicate ModeIsAccepted(members: seq<(string, Json)>, systemManaged: bool) {
    Get(members, "mode").Some? ==>
      systemManaged && (Get(members, "mode") == Some(Str("forward")) || Get(members, "mode") == Some(Str("local")))
  }

  /** What the gateway document may say about an operation. */
  predicate OperationIsAccepted(
    parse: Parser, api: ApiOperation, overrides: seq<(string, Json)>, defaults: Option<Json>, systemManaged: bool)
  {
    var members := Members(Get(overrides, api.operationId));
    && EntryIsObject(overrides, api.operationId) && ModeIsAccepted(members, systemManaged)
    && ListIsValid(parse, Get(members, "policies"), systemManaged)
    && if IsLocal(members, systemManaged)
       then SomeTerminates(Items(ListOf(members, defaults)))
       else IsTarget(api.path, TargetOf(members, api.path))
  }

  /** And what that makes of it. */
  predicate IsOperationOf(
    parse: Parser, op: Operation, api: ApiOperation, overrides: seq<(string, Json)>, defaults: Option<Json>, systemManaged: bool)
  {
    var members := Members(Get(overrides, api.operationId));
    && op.operationId == api.operationId && op.verb == api.verb && op.path == api.path
    && (op.mode.Local? <==> IsLocal(members, systemManaged))
    && op.targetPath == (if IsLocal(members, systemManaged) then None else Some(TargetOf(members, api.path)))
    && ArePoliciesOf(parse, op.policies, Items(ListOf(members, defaults)))
  }

  lemma {:induction false} EnabledIff(policies: seq<Policy>, t: PolicyType)
    ensures t in Enabled(policies) <==> exists i :: 0 <= i < |policies| && policies[i].enabled && policies[i].kind == t
    decreases |policies|
  {
    if policies != [] {
      var rest := policies[1..];
      EnabledIff(rest, t);
      if i :| 0 <= i < |rest| && rest[i].enabled && rest[i].kind == t { assert policies[i + 1] == rest[i]; }
      if i :| 0 <= i < |policies| && policies[i].enabled && policies[i].kind == t {
        if i > 0 { assert rest[i - 1] == policies[i]; }
      }
    }
  }

  lemma TerminalIsOfEntries(parse: Parser, policies: seq<Policy>, items: seq<Json>)
    requires ArePoliciesOf(parse, policies, items)
    ensures HasTerminal(Enabled(policies)) <==> SomeTerminates(items)
  {
    forall i | 0 <= i < |items|
      ensures IsPolicyOf(parse, policies[i], items[i], i + 1)
      ensures TerminatesAt(items, i) <==> policies[i].enabled && IsTerminal(policies[i].kind)
    {
      assert IsPolicyOf(parse, policies[i], items[i], i + 1);
      TypesAreNamed(NameOfEntry(items[i]).value);
    }
    if HasTerminal(Enabled(policies)) {
      var t :| t in Enabled(policies) && IsTerminal(t);
      EnabledIff(policies, t);
      var i :| 0 <= i < |policies| && policies[i].enabled && policies[i].kind == t;
      assert TerminatesAt(items, i);
    }
    if i :| 0 <= i < |items| && TerminatesAt(items, i) {
      EnabledIff(policies, policies[i].kind);
      assert policies[i].kind in Enabled(policies);
    }
  }

  /** The compiler's turn for an operation, given what became of its policy list. */
  lemma TurnSucceedsIff(
    parse: Parser, api: ApiOperation, overrides: seq<(string, Json)>, defaults: seq<Policy>, systemManaged: bool,
    members: seq<(string, Json)>, own: Result<seq<Policy>, BundleError>)
    requires members == Members(Get(overrides, api.operationId))
    requires own == PoliciesFor(parse, Get(members, "policies"), defaults, systemManaged)
    ensures var compiled := CompileOperation(parse, api, overrides, defaults, systemManaged);
            && (compiled.Ok? <==>
                  && EntryIsObject(overrides, api.operationId) && ModeIsAccepted(members, systemManaged) && own.Ok?
                  && if IsLocal(members, systemManaged) then HasTerminal(Enabled(own.value))
                     else IsTarget(api.path, TargetOf(members, api.path)))
            && (compiled.Ok? ==> compiled.value == Operation(
                  api.operationId, api.verb, if IsLocal(members, systemManaged) then Local else Forward, api.path,
                  if IsLocal(members, systemManaged) then None else Some(TargetOf(members, api.path)), own.value))
  {
    AmongIsIn(api.operationId, INHERITED);
    TargetIsAcceptedIff(api.path, TargetOf(members, api.path));
  }

  lemma TargetIsAcceptedIff(path: string, target: string)
    ensures IsTarget(path, target) <==> target == "" || TargetPathIsValid(path, target)
  {}

  lemma OwnListIff(parse: Parser, members: seq<(string, Json)>, defaults: Option<Json>, systemManaged: bool)
    requires CompilePolicies(parse, defaults, systemManaged).Ok?
    ensures var own := PoliciesFor(
              parse, Get(members, "policies"), CompilePolicies(parse, defaults, systemManaged).value, systemManaged);
            && (own.Ok? <==> ListIsValid(parse, Get(members, "policies"), systemManaged))
            && (own.Ok? ==> ArePoliciesOf(parse, own.value, Items(ListOf(members, defaults))))
  {
    ListCompilesIff(parse, defaults, systemManaged);
    ListCompilesIff(parse, Get(members, "policies"), systemManaged);
  }

  /** An operation compiles exactly when what is said about it is accepted, and means that. */
  lemma OperationCompilesIff(
    parse: Parser, api: ApiOperation, overrides: seq<(string, Json)>, defaults: Option<Json>, systemManaged: bool)
    requires CompilePolicies(parse, defaults, systemManaged).Ok?
    ensures var compiled := CompileOperation(
              parse, api, overrides, CompilePolicies(parse, defaults, systemManaged).value, systemManaged);
            && (compiled.Ok? <==> OperationIsAccepted(parse, api, overrides, defaults, systemManaged))
            && (compiled.Ok? ==> IsOperationOf(parse, compiled.value, api, overrides, defaults, systemManaged))
  {
    var members := Members(Get(overrides, api.operationId));
    var policies := CompilePolicies(parse, defaults, systemManaged).value;
    var own := PoliciesFor(parse, Get(members, "policies"), policies, systemManaged);
    TurnSucceedsIff(parse, api, overrides, policies, systemManaged, members, own);
    OwnListIff(parse, members, defaults, systemManaged);
    if own.Ok? { TerminalIsOfEntries(parse, own.value, Items(ListOf(members, defaults))); }
  }

  // ------------------------------------------------------------------------- bundles

  function DefaultList(gateway: seq<(string, Json)>): Option<Json> {
    Get(Members(Get(gateway, "defaults")), "policies")
  }

  function EntriesFor(gateway: seq<(string, Json)>): seq<(string, Json)> {
    Members(Get(gateway, "operations"))
  }

  predicate AllAreAccepted(
    parse: Parser, apis: seq<ApiOperation>, overrides: seq<(string, Json)>, defaults: Option<Json>, systemManaged: bool)
  {
    forall i :: 0 <= i < |apis| ==> OperationIsAccepted(parse, apis[i], overrides, defaults, systemManaged)
  }

  predicate HasObjects(gateway: seq<(string, Json)>) {
    && (Get(gateway, "defaults").Some? ==> Get(gateway, "defaults").value.Obj?)
    && (Get(gateway, "operations").Some? ==> Get(gateway, "operations").value.Obj?)
  }

  predicate IsFor(apis: seq<ApiOperation>, entry: (string, Json)) {
    exists j :: 0 <= j < |apis| && apis[j].operationId == entry.0
  }

  /** The entries are for operations of the document. */
  predicate EntriesAreKnown(apis: seq<ApiOperation>, entries: seq<(string, Json)>) {
    forall i :: 0 <= i < |entries| ==> IsFor(apis, entries[i])
  }

  /** The two documents of a bundle that the compiler accepts. */
  predicate BundleIsAccepted(parse: Parser, apis: seq<ApiOperation>, gateway: seq<(string, Json)>, systemManaged: bool) {
    && apis != [] && IdsDiffer(apis) && NoIdIsBlank(apis)
    && Get(gateway, "apiVersion") == Some(Str("gateway.platform/v1")) && IsBasePath(Get(gateway, "basePath"))
    && HasObjects(gateway) && ListIsValid(parse, DefaultList(gateway), systemManaged)
    && AllAreAccepted(parse, apis, EntriesFor(gateway), DefaultList(gateway), systemManaged)
    && EntriesAreKnown(apis, EntriesFor(gateway))
  }

  predicate AreOperationsOf(
    parse: Parser, ops: seq<Operation>, apis: seq<ApiOperation>, overrides: seq<(string, Json)>, defaults: Option<Json>,
    systemManaged: bool)
  {
    |ops| == |apis| && forall i :: 0 <= i < |apis| ==> IsOperationOf(parse, ops[i], apis[i], overrides, defaults, systemManaged)
  }

  /** The bundle they make: the normalized base path and each operation as described. */
  predicate IsBundleOf(
    parse: Parser, bundle: CompiledBundle, apis: seq<ApiOperation>, gateway: seq<(string, Json)>, systemManaged: bool)
  {
    && NormalizeBasePath(Get(gateway, "basePath")) == Ok(bundle.basePath)
    && AreOperationsOf(parse, bundle.operations, apis, EntriesFor(gateway), DefaultList(gateway), systemManaged)
  }

  lemma OneMoreOperation(
    parse: Parser, front: seq<Operation>, last: Operation, apis: seq<ApiOperation>, overrides: seq<(string, Json)>,
    defaults: Option<Json>, systemManaged: bool)
    requires apis != [] && AreOperationsOf(parse, front, apis[..|apis| - 1], overrides, defaults, systemManaged)
    requires IsOperationOf(parse, last, apis[|apis| - 1], overrides, defaults, systemManaged)
    ensures AreOperationsOf(parse, front + [last], apis, overrides, defaults, systemManaged)
  {
    forall i | 0 <= i < |apis| - 1 ensures IsOperationOf(parse, front[i], apis[i], overrides, defaults, systemManaged) {
      assert apis[..|apis| - 1][i] == apis[i];
    }
  }

  lemma OneMoreAccepted(
    parse: Parser, apis: seq<ApiOperation>, overrides: seq<(string, Json)>, defaults: Option<Json>, systemManaged: bool)
    requires apis != []
    ensures AllAreAccepted(parse, apis, overrides, defaults, systemManaged)
       <==> AllAreAccepted(parse, apis[..|apis| - 1], overrides, defaults, systemManaged)
            && OperationIsAccepted(parse, apis[|apis| - 1], overrides, defaults, systemManaged)
  {
    forall i | 0 <= i < |apis| - 1 ensures apis[..|apis| - 1][i] == apis[i] {}
  }

  lemma {:induction false} OperationsCompileIff(
    parse: Parser, apis: seq<ApiOperation>, overrides: seq<(string, Json)>, defaults: Option<Json>, systemManaged: bool)
    requires CompilePolicies(parse, defaults, systemManaged).Ok?
    ensures var compiled := CompileOperations(
              parse, apis, overrides, CompilePolicies(parse, defaults, systemManaged).value, systemManaged);
            && (compiled.Ok? <==> AllAreAccepted(parse, apis, overrides, defaults, systemManaged))
            && (compiled.Ok? ==> AreOperationsOf(parse, compiled.value, apis, overrides, defaults, systemManaged))
    decreases |apis|
  {
    if apis != [] {
      var n, policies := |apis| - 1, CompilePolicies(parse, defaults, systemManaged).value;
      OperationsCompileIff(parse, apis[..n], overrides, defaults, systemManaged);
      OperationCompilesIff(parse, apis[n], overrides, defaults, systemManaged);
      OneMoreAccepted(parse, apis, overrides, defaults, systemManaged);
      var front := CompileOperations(parse, apis[..n], overrides, policies, systemManaged);
      var last := CompileOperation(parse, apis[n], overrides, policies, systemManaged);
      if front.Ok? && last.Ok? {
        OneMoreOperation(parse, front.value, last.value, apis, overrides, defaults, systemManaged);
      }
    }
  }

  lemma KnownIff(apis: seq<ApiOperation>, entries: seq<(string, Json)>)
    ensures AllKnown(entries, apis) <==> EntriesAreKnown(apis, entries)
  {
    forall i | 0 <= i < |entries| ensures IsDeclared(entries[i].0, apis) <==> IsFor(apis, entries[i]) {}
  }

  /** The compiler's passes over inspected operations, one after the other. */
  lemma PassesSucceedIff(parse: Parser, apis: seq<ApiOperation>, gateway: seq<(string, Json)>, systemManaged: bool,
    defaults: Result<seq<Policy>, BundleError>)
    requires defaults == CompilePolicies(parse, DefaultList(gateway), systemManaged)
    ensures var compiled := CompileInspected(parse, apis, gateway, systemManaged);
            && (compiled.Ok? <==>
                  && Get(gateway, "apiVersion") == Some(Str("gateway.platform/v1"))
                  && NormalizeBasePath(Get(gateway, "basePath")).Ok? && HasObjects(gateway) && defaults.Ok?
                  && CompileOperations(parse, apis, EntriesFor(gateway), defaults.value, systemManaged).Ok?
                  && AllKnown(EntriesFor(gateway), apis))
            && (compiled.Ok? ==> compiled.value == CompiledBundle(
                  NormalizeBasePath(Get(gateway, "basePath")).value,
                  CompileOperations(parse, apis, EntriesFor(gateway), defaults.value, systemManaged).value))
  {}

  /** The compiler accepts exactly the bundles whose documents are in order, and compiles
      them to what they say. */
  lemma CompileSucceedsIff(parse: Parser, apis: seq<ApiOperation>, gateway: seq<(string, Json)>, systemManaged: bool)
    requires IdsAreTrimmed(apis)
    ensures var compiled := Compile(parse, apis, gateway, systemManaged);
            && (compiled.Ok? <==> BundleIsAccepted(parse, apis, gateway, systemManaged))
            && (compiled.Ok? ==> IsBundleOf(parse, compiled.value, apis, gateway, systemManaged))
  {
    var defaults := CompilePolicies(parse, DefaultList(gateway), systemManaged);
    InspectIff(apis);
    PassesSucceedIff(parse, apis, gateway, systemManaged, defaults);
    BasePathIsAcceptedIff(Get(gateway, "basePath"));
    ListCompilesIff(parse, DefaultList(gateway), systemManaged);
    KnownIff(apis, EntriesFor(gateway));
    if defaults.Ok? {
      OperationsCompileIff(parse, apis, EntriesFor(gateway), DefaultList(gateway), systemManaged);
    }
  }

  function WithTrimmedId(api: ApiOperation): ApiOperation {
    api.(operationId := Trim(api.operationId))
  }

  /** Ids may be written with white space around them: it makes no difference. */
  lemma IdsAreTrimmedFirst(parse: Parser, apis: seq<ApiOperation>, trimmed: seq<ApiOperation>, gateway: seq<(string, Json)>, systemManaged: bool)
    requires |trimmed| == |apis| && forall i :: 0 <= i < |apis| ==> trimmed[i] == WithTrimmedId(apis[i])
    ensures IdsAreTrimmed(trimmed)
    ensures Compile(parse, apis, gateway, systemManaged) == Compile(parse, trimmed, gateway, systemManaged)
  {
    CollectedAlike(apis, trimmed);
    forall i | 0 <= i < |apis| ensures Trim(trimmed[i].operationId) == trimmed[i].operationId {
      TrimTwice(apis[i].operationId);
    }
  }

  lemma {:induction false} CollectedAlike(apis: seq<ApiOperation>, trimmed: seq<ApiOperation>)
    requires |trimmed| == |apis| && forall i :: 0 <= i < |apis| ==> trimmed[i] == WithTrimmedId(apis[i])
    ensures Collected(trimmed) == Collected(apis)
    decreases |apis|
  {
    if apis != [] {
      CollectedAlike(apis[..|apis| - 1], trimmed[..|apis| - 1]);
      TrimTwice(apis[|apis| - 1].operationId);
    }
  }

  // ------------------------------------------------------------ what a gateway will run

  predicate AuthenticatesBy(policies: seq<Policy>, i: nat) {
    i < |policies| && policies[i].enabled && policies[i].kind in {ApiKeyAuth, OAuthAccessToken, MtlsAuth}
  }

  predicate TerminatesBy(policies: seq<Policy>, i: nat) {
    i < |policies| && policies[i].enabled && policies[i].kind in {OAuthToken, JwksEndpoint}
  }

  lemma {:induction false} NoneAuthenticatesIff(policies: seq<Policy>)
    ensures Authentications(Enabled(policies)) == 0 <==> forall i :: 0 <= i < |policies| ==> !AuthenticatesBy(policies, i)
  {
    if policies != [] {
      var rest := policies[1..];
      NoneAuthenticatesIff(rest);
      FirstCounts(policies);
      forall i | 0 <= i < |rest| ensures AuthenticatesBy(rest, i) <==> AuthenticatesBy(policies, i + 1) {}
      if forall i :: 0 <= i < |rest| ==> !AuthenticatesBy(rest, i) {
        forall i | 0 < i < |policies| ensures !AuthenticatesBy(policies, i) { assert !AuthenticatesBy(rest, i - 1); }
      }
    }
  }

  lemma FirstCounts(policies: seq<Policy>)
    requires policies != []
    ensures Authentications(Enabled(policies))
         == Authentications(Enabled(policies[1..])) + if AuthenticatesBy(policies, 0) then 1 else 0
  {
    var rest := Enabled(policies[1..]);
    EmptyFront(rest);
    assert ([policies[0].kind] + rest)[1..] == rest;
  }

  lemma {:induction false} OneAuthenticatesIff(policies: seq<Policy>)
    ensures Authentications(Enabled(policies)) <= 1
       <==> forall i, j :: 0 <= i < j < |policies| ==> !AuthenticatesBy(policies, i) || !AuthenticatesBy(policies, j)
  {
    if policies != [] {
      var rest := policies[1..];
      OneAuthenticatesIff(rest);
      NoneAuthenticatesIff(rest);
      FirstCounts(policies);
      forall i | 0 <= i < |rest| ensures AuthenticatesBy(rest, i) <==> AuthenticatesBy(policies, i + 1) {}
      if Authentications(Enabled(policies)) <= 1 {
        forall i, j | 0 <= i < j < |policies| ensures !AuthenticatesBy(policies, i) || !AuthenticatesBy(policies, j) {
          assert !AuthenticatesBy(rest, j - 1) || i == 0 || !AuthenticatesBy(rest, i - 1);
        }
      } else if AuthenticatesBy(policies, 0) {
        var j :| 0 <= j < |rest| && AuthenticatesBy(rest, j);
        assert AuthenticatesBy(policies, j + 1);
      } else {
        var i, j :| 0 <= i < j < |rest| && AuthenticatesBy(rest, i) && AuthenticatesBy(rest, j);
        assert AuthenticatesBy(policies, i + 1) && AuthenticatesBy(policies, j + 1);
      }
    }
  }

  lemma SomeTerminatesIff(policies: seq<Policy>)
    ensures HasTerminal(Enabled(policies)) <==> OAuthToken in Enabled(policies) || JwksEndpoint in Enabled(policies)
    ensures HasTerminal(Enabled(policies)) <==> exists i :: 0 <= i < |policies| && TerminatesBy(policies, i)
  {
    EnabledIff(policies, OAuthToken);
    EnabledIff(policies, JwksEndpoint);
    forall i | 0 <= i < |policies|
      ensures TerminatesBy(policies, i)
         <==> policies[i].enabled && (policies[i].kind == OAuthToken || policies[i].kind == JwksEndpoint) {}
    if i :| 0 <= i < |policies| && TerminatesBy(policies, i) {
      EnabledIff(policies, policies[i].kind);
    }
    if t :| t in Enabled(policies) && IsTerminal(t) {
      var i :| 0 <= i < |policies| && policies[i].enabled && policies[i].kind == t;
      assert TerminatesBy(policies, i);
    }
  }

  lemma {:induction false} ReparsedAlike(parse: Parser, policies: seq<Policy>)
    requires Reparse(parse, policies).Some?
    ensures Enabled(Reparse(parse, policies).value) == Enabled(policies)
  {
    if policies != [] {
      ReparsedAlike(parse, policies[1..]);
      var rest := Reparse(parse, policies[1..]).value;
      assert Reparse(parse, policies).value[1..] == rest;
    }
  }

  /** The validator takes an operation with no two authentications in force, which either is
      local and has a terminal policy in force, or forwards, has none, and has a target and an
      upstream. */
  lemma ValidatorAcceptsIff(op: Operation, upstream: Option<string>)
    ensures ValidatorAccepts(op, upstream)
       <==>
         && (forall i, j :: 0 <= i < j < |op.policies| ==> !AuthenticatesBy(op.policies, i) || !AuthenticatesBy(op.policies, j))
         && if op.mode.Local? then exists i :: 0 <= i < |op.policies| && TerminatesBy(op.policies, i)
            else
              && (op.targetPath.Some? && op.targetPath.value != "") && (upstream.Some? && upstream.value != "")
              && forall i :: 0 <= i < |op.policies| ==> !TerminatesBy(op.policies, i)
  {
    OneAuthenticatesIff(op.policies);
    SomeTerminatesIff(op.policies);
  }

  /** The loader lets through, of the operations whose configurations parse, exactly those
      that the validator then takes. */
  lemma LoaderAgreesWithValidator(parse: Parser, op: Operation, upstream: Option<string>)
    ensures LoadOperation(parse, op, upstream).Some? <==> Reparse(parse, op.policies).Some? && ValidatorAccepts(op, upstream)
    ensures LoadOperation(parse, op, upstream).Some? ==> ValidatorAccepts(LoadOperation(parse, op, upstream).value, upstream)
  {
    if Reparse(parse, op.policies).Some? { ReparsedAlike(parse, op.policies); }
  }
}
