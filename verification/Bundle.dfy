/** The bundle compiler of `proxy-bundle.ts`, from parsed documents on, and the
    checks a compiled operation meets again in the gateway: the loader's and the
    configuration validator's. */
module Bundle {
  import opened Schema
  import opened Seqs
  import opened Templates
  import opened Whitespace

  datatype BundleError = InvalidOpenApi | InvalidGatewayConfig | PolicyNotSupported | UnknownOperation

  /** `parsePolicyConfig`: None where the schema rejects the configuration. */
  type Parser = (PolicyType, Option<Json>) -> Option<Json>

  /** One operation of the OpenAPI document: before its inspection with the id as written. */
  datatype ApiOperation = ApiOperation(operationId: string, verb: Verb, path: string)

  datatype CompiledBundle = CompiledBundle(basePath: string, operations: seq<Operation>)

  // ---------------------------------------------------------------- compiling

  function TypeNamed(name: string): Option<PolicyType> {
    if name == "api-key-auth" then Some(ApiKeyAuth)
    else if name == "oauth-access-token" then Some(OAuthAccessToken)
    else if name == "mtls-auth" then Some(MtlsAuth)
    else if name == "rate-limit" then Some(RateLimit)
    else if name == "oauth-token" then Some(OAuthToken)
    else if name == "jwks-endpoint" then Some(JwksEndpoint)
    else if name in ["transform", "schema-validation", "audit-log", "cors"] then Some(Other(name))
    else None
  }

  predicate IsAllowed(t: PolicyType, systemManaged: bool) {
    IsBusiness(t) || (systemManaged && IsTerminal(t))
  }

  function WithoutTrailingSlashes(s: string): string {
    if s != "" && s[|s| - 1] == '/' then WithoutTrailingSlashes(s[..|s| - 1]) else s
  }

  /** Exactly the slashes at the end are cut off. */
  lemma {:induction false} SlashesAreCut(s: string)
    ensures var kept := WithoutTrailingSlashes(s);
            && kept <= s && (kept != "" ==> kept[|kept| - 1] != '/')
            && (forall k :: |kept| <= k < |s| ==> s[k] == '/')
            && forall c :: c != '/' ==> (c in kept <==> c in s)
  {
    if s != "" && s[|s| - 1] == '/' {
      SlashesAreCut(s[..|s| - 1]);
      SplitLast(s);
    }
  }

  function NormalizeBasePath(value: Option<Json>): Result<string, BundleError> {
    match value
    case Some(Str(s)) =>
      if s == "" || s[0] != '/' then Err(InvalidGatewayConfig)
      else if '?' in s || '#' in s then Err(InvalidGatewayConfig)
      else
        var normalized := if s == "/" then s else WithoutTrailingSlashes(s);
        if '{' in normalized || '}' in normalized then Err(InvalidGatewayConfig) else Ok(normalized)
    case _ => Err(InvalidGatewayConfig)
  }

  function CompilePolicy(parse: Parser, candidate: Json, order: nat, systemManaged: bool): Result<Policy, BundleError> {
    if !candidate.Obj? then Err(InvalidGatewayConfig)
    else match Get(candidate.fields, "type")
      case Some(Str(name)) =>
        (match TypeNamed(name)
         case Some(kind) =>
           if !IsAllowed(kind, systemManaged) then Err(PolicyNotSupported)
           else
             var enabled := Get(candidate.fields, "enabled");
             if enabled.Some? && !enabled.value.Bool? then Err(InvalidGatewayConfig)
             else
               (match parse(kind, Get(candidate.fields, "config"))
                case Some(config) => Ok(Policy(kind, order, if enabled.Some? then enabled.value.b else true, config))
                case None => Err(InvalidGatewayConfig))
         case None => Err(PolicyNotSupported))
      case _ => Err(InvalidGatewayConfig)
  }

  function CompileEach(parse: Parser, items: seq<Json>, systemManaged: bool): Result<seq<Policy>, BundleError> {
    if items == [] then Ok([])
    else
      match CompileEach(parse, items[..|items| - 1], systemManaged)
      case Err(e) => Err(e)
      case Ok(front) =>
        match CompilePolicy(parse, items[|items| - 1], |items|, systemManaged)
        case Err(e) => Err(e)
        case Ok(last) => Ok(front + [last])
  }

  /** `compilePolicies`. */
  function CompilePolicies(parse: Parser, value: Option<Json>, systemManaged: bool): Result<seq<Policy>, BundleError> {
    match value
    case None => Ok([])
    case Some(Arr(items)) =>
      (match CompileEach(parse, items, systemManaged)
       case Err(e) => Err(e)
       case Ok(policies) =>
         var count := Authentications(Enabled(policies));
         if (!systemManaged && count != 1) || count > 1 then Err(InvalidGatewayConfig) else Ok(policies))
    case Some(_) => Err(InvalidGatewayConfig)
  }

  /** `validateTargetPath`. */
  predicate TargetPathIsValid(path: string, target: string) {
    target != "" && target[0] == '/' && BraceNames(target) <= BraceNames(path)
  }

  /** The functions every JavaScript object inherits, by name. */
  const INHERITED: seq<string> := [
    "constructor", "hasOwnProperty", "isPrototypeOf", "propertyIsEnumerable", "toLocaleString", "toString", "valueOf",
    "__defineGetter__", "__defineSetter__", "__lookupGetter__", "__lookupSetter__"]

  predicate IsAmong(name: string, names: seq<string>) {
    names != [] && (names[0] == name || IsAmong(name, names[1..]))
  }

  /** `overrides[operationId]`, with an empty object for undefined. A name the document does
      not list may still be found on the prototype: as a function, which is no object to the
      compiler (Null stands for it here), or as `__proto__`, an object without own members. */
  function OverrideOf(overrides: seq<(string, Json)>, operationId: string): Json {
    match Get(overrides, operationId)
    case Some(json) => json
    case None => if IsAmong(operationId, INHERITED) then Null else Obj([])
  }

  /** An operation's own policy list, or the defaults. */
  function PoliciesFor(parse: Parser, own: Option<Json>, defaults: seq<Policy>, systemManaged: bool): Result<seq<Policy>, BundleError> {
    if own.None? then Ok(defaults) else CompilePolicies(parse, own, systemManaged)
  }

  /** One turn of the loop of `compileProxyBundle`. */
  function CompileOperation(
    parse: Parser, api: ApiOperation, overrides: seq<(string, Json)>, defaults: seq<Policy>, systemManaged: bool)
    : Result<Operation, BundleError>
  {
    var override := OverrideOf(overrides, api.operationId);
    if !override.Obj? then Err(InvalidGatewayConfig)
    else
      var declared := Get(override.fields, "mode");
      if declared.Some? && declared.value != Str("forward") && declared.value != Str("local") then Err(InvalidGatewayConfig)
      else if !systemManaged && declared.Some? then Err(InvalidGatewayConfig)
      else
        var mode := if systemManaged && declared == Some(Str("local")) then Local else Forward;
        var targetPath :=
          if mode.Local? then None
          else match Get(override.fields, "targetPath")
            case Some(Str(s)) => Some(s)
            case _ => Some(api.path);
        if targetPath.Some? && targetPath.value != "" && !TargetPathIsValid(api.path, targetPath.value) then
          Err(InvalidGatewayConfig)
        else
          match PoliciesFor(parse, Get(override.fields, "policies"), defaults, systemManaged)
          case Err(e) => Err(e)
          case Ok(ps) =>
            if mode.Local? && !HasTerminal(Enabled(ps)) then Err(InvalidGatewayConfig)
            else Ok(Operation(api.operationId, api.verb, mode, api.path, targetPath, ps))
  }

  function CompileOperations(
    parse: Parser, apis: seq<ApiOperation>, overrides: seq<(string, Json)>, defaults: seq<Policy>, systemManaged: bool)
    : Result<seq<Operation>, BundleError>
  {
    if apis == [] then Ok([])
    else
      match CompileOperations(parse, apis[..|apis| - 1], overrides, defaults, systemManaged)
      case Err(e) => Err(e)
      case Ok(front) =>
        match CompileOperation(parse, apis[|apis| - 1], overrides, defaults, systemManaged)
        case Err(e) => Err(e)
        case Ok(last) => Ok(front + [last])
  }

  predicate IsDeclared(operationId: string, apis: seq<ApiOperation>) {
    exists j :: 0 <= j < |apis| && apis[j].operationId == operationId
  }

  predicate AllKnown(overrides: seq<(string, Json)>, apis: seq<ApiOperation>) {
    forall i :: 0 <= i < |overrides| ==> IsDeclared(overrides[i].0, apis)
  }

  /** An optional object member: absent counts as empty. */
  function ObjectOrEmpty(value: Option<Json>): Result<seq<(string, Json)>, BundleError> {
    match value
    case None => Ok([])
    case Some(Obj(fields)) => Ok(fields)
    case Some(_) => Err(InvalidGatewayConfig)
  }

  /** The operations `inspectOpenApiDocument` collects: ids trimmed, none blank, none twice. */
  function Collected(apis: seq<ApiOperation>): Result<seq<ApiOperation>, BundleError> {
    if apis == [] then Ok([])
    else
      match Collected(apis[..|apis| - 1])
      case Err(e) => Err(e)
      case Ok(front) =>
        var last := apis[|apis| - 1];
        var id := Trim(last.operationId);
        if id == "" || IsDeclared(id, front) then Err(InvalidOpenApi) else Ok(front + [last.(operationId := id)])
  }

  /** `inspectOpenApiDocument`: a document without operations is refused. */
  function Inspect(apis: seq<ApiOperation>): Result<seq<ApiOperation>, BundleError> {
    match Collected(apis)
    case Err(e) => Err(e)
    case Ok(operations) => if operations == [] then Err(InvalidOpenApi) else Ok(operations)
  }

  /** What `compileProxyBundle` makes of inspected operations and a parsed gateway document. */
  function CompileInspected(parse: Parser, apis: seq<ApiOperation>, gateway: seq<(string, Json)>, systemManaged: bool)
    : Result<CompiledBundle, BundleError>
  {
    if Get(gateway, "apiVersion") != Some(Str("gateway.platform/v1")) then Err(InvalidGatewayConfig)
    else
      match NormalizeBasePath(Get(gateway, "basePath"))
      case Err(e) => Err(e)
      case Ok(basePath) =>
        match ObjectOrEmpty(Get(gateway, "defaults"))
        case Err(e) => Err(e)
        case Ok(defaults) =>
          match CompilePolicies(parse, Get(defaults, "policies"), systemManaged)
          case Err(e) => Err(e)
          case Ok(defaultPolicies) =>
            match ObjectOrEmpty(Get(gateway, "operations"))
            case Err(e) => Err(e)
            case Ok(overrides) =>
              match CompileOperations(parse, apis, overrides, defaultPolicies, systemManaged)
              case Err(e) => Err(e)
              case Ok(operations) =>
                if AllKnown(overrides, apis) then Ok(CompiledBundle(basePath, operations)) else Err(UnknownOperation)
  }

  /** `compileProxyBundle`, from the documents' parsed contents on. */
  function Compile(parse: Parser, apis: seq<ApiOperation>, gateway: seq<(string, Json)>, systemManaged: bool)
    : Result<CompiledBundle, BundleError>
  {
    match Inspect(apis)
    case Err(e) => Err(e)
    case Ok(operations) => CompileInspected(parse, operations, gateway, systemManaged)
  }

  lemma FirstRefusalStays(apis: seq<ApiOperation>, n: nat)
    requires n <= |apis| && Collected(apis[..n]).Err?
    ensures Collected(apis) == Collected(apis[..n])
    decreases |apis|
  {
    if n == |apis| {
      assert apis[..n] == apis;
    } else {
      assert apis[..|apis| - 1][..n] == apis[..n];
      FirstRefusalStays(apis[..|apis| - 1], n);
    }
  }

  /** The loop of `inspectOpenApiDocument` over the operations, with its set of ids. */
  method InspectOperations(apis: seq<ApiOperation>) returns (r: Result<seq<ApiOperation>, BundleError>)
    ensures r == Inspect(apis)
  {
    var operations: seq<ApiOperation> := [];
    var operationIds: set<string> := {};
    var i := 0;
    while i < |apis|
      invariant 0 <= i <= |apis|
      invariant Collected(apis[..i]) == Ok(operations)
      invariant forall id :: id in operationIds <==> IsDeclared(id, operations)
    {
      var operationId := Trim(apis[i].operationId);
      assert apis[..i + 1][..i] == apis[..i] && apis[..i + 1][i] == apis[i];
      if operationId == "" || operationId in operationIds {
        FirstRefusalStays(apis, i + 1);
        return Err(InvalidOpenApi);
      }
      operationIds := operationIds + {operationId};
      OneMoreDeclared(operations, apis[i].(operationId := operationId));
      operations := operations + [apis[i].(operationId := operationId)];
      i := i + 1;
    }
    assert apis[..i] == apis;
    r := if operations == [] then Err(InvalidOpenApi) else Ok(operations);
  }

  lemma OneMoreDeclared(operations: seq<ApiOperation>, next: ApiOperation)
    ensures forall id :: IsDeclared(id, operations + [next]) <==> IsDeclared(id, operations) || id == next.operationId
  {
    var more := operations + [next];
    assert more[|operations|] == next;
    forall id | IsDeclared(id, operations) ensures IsDeclared(id, more) {
      var j :| 0 <= j < |operations| && operations[j].operationId == id;
      assert more[j].operationId == id;
    }
  }

  predicate IdsDiffer(apis: seq<ApiOperation>) {
    forall i, j :: 0 <= i < j < |apis| ==> apis[i].operationId != apis[j].operationId
  }

  predicate IdsAreTrimmed(apis: seq<ApiOperation>) {
    forall i :: 0 <= i < |apis| ==> Trim(apis[i].operationId) == apis[i].operationId
  }

  predicate NoIdIsBlank(apis: seq<ApiOperation>) {
    forall i :: 0 <= i < |apis| ==> Trim(apis[i].operationId) != ""
  }

  /** What the inspection lets through has different, trimmed ids. */
  lemma {:induction false} CollectedIdsDiffer(apis: seq<ApiOperation>)
    requires Collected(apis).Ok?
    ensures var operations := Collected(apis).value;
            |operations| == |apis| && IdsDiffer(operations) && IdsAreTrimmed(operations) && NoIdIsBlank(operations)
    decreases |apis|
  {
    if apis != [] {
      CollectedIdsDiffer(apis[..|apis| - 1]);
      TrimTwice(apis[|apis| - 1].operationId);
    }
  }

  /** Operations with trimmed ids pass the inspection, unchanged, exactly when there are some
      and their ids are different and not blank. */
  lemma InspectIff(apis: seq<ApiOperation>)
    requires IdsAreTrimmed(apis)
    ensures Inspect(apis).Ok? <==> apis != [] && IdsDiffer(apis) && NoIdIsBlank(apis)
    ensures Inspect(apis).Ok? ==> Inspect(apis).value == apis
  {
    CollectedIff(apis);
  }

  lemma {:induction false} CollectedIff(apis: seq<ApiOperation>)
    requires IdsAreTrimmed(apis)
    ensures Collected(apis).Ok? <==> IdsDiffer(apis) && NoIdIsBlank(apis)
    ensures Collected(apis).Ok? ==> Collected(apis).value == apis
    decreases |apis|
  {
    if apis != [] {
      var front, last := apis[..|apis| - 1], apis[|apis| - 1];
      CollectedIff(front);
      SplitLast(apis);
      LastDiffers(apis);
    }
  }

  lemma LastDiffers(apis: seq<ApiOperation>)
    requires apis != []
    ensures IdsDiffer(apis) <==> IdsDiffer(apis[..|apis| - 1]) && !IsDeclared(apis[|apis| - 1].operationId, apis[..|apis| - 1])
  {
    var front := apis[..|apis| - 1];
    if IsDeclared(apis[|apis| - 1].operationId, front) {
      var j :| 0 <= j < |front| && front[j].operationId == apis[|apis| - 1].operationId;
      assert apis[j] == front[j];
    }
    if IdsDiffer(apis) {
      forall i, j | 0 <= i < j < |front| ensures front[i].operationId != front[j].operationId {
        assert apis[i] == front[i] && apis[j] == front[j];
      }
    }
  }

  lemma FirstErrorStays(
    parse: Parser, apis: seq<ApiOperation>, n: nat, overrides: seq<(string, Json)>, defaults: seq<Policy>, systemManaged: bool)
    requires n <= |apis| && CompileOperations(parse, apis[..n], overrides, defaults, systemManaged).Err?
    ensures CompileOperations(parse, apis, overrides, defaults, systemManaged)
         == CompileOperations(parse, apis[..n], overrides, defaults, systemManaged)
    decreases |apis|
  {
    if n == |apis| {
      assert apis[..n] == apis;
    } else {
      assert apis[..|apis| - 1][..n] == apis[..n];
      FirstErrorStays(parse, apis[..|apis| - 1], n, overrides, defaults, systemManaged);
    }
  }

  /** One more operation is compiled behind those that were accepted. */
  lemma NextCompiled(
    parse: Parser, apis: seq<ApiOperation>, n: nat, overrides: seq<(string, Json)>, defaults: seq<Policy>,
    systemManaged: bool, front: seq<Operation>)
    requires n < |apis| && CompileOperations(parse, apis[..n], overrides, defaults, systemManaged) == Ok(front)
    ensures CompileOperations(parse, apis[..n + 1], overrides, defaults, systemManaged)
         == match CompileOperation(parse, apis[n], overrides, defaults, systemManaged)
            case Ok(next) => Ok(front + [next])
            case Err(e) => Err(e)
  {
    assert apis[..n + 1][..n] == apis[..n] && apis[..n + 1][n] == apis[n];
  }

  /** The compiling loop of `compileProxyBundle`: operations are pushed one at a
      time, and the first one that is refused refuses the bundle. */
  method PushOperations(
    parse: Parser, apis: seq<ApiOperation>, overrides: seq<(string, Json)>, defaults: seq<Policy>, systemManaged: bool)
    returns (r: Result<seq<Operation>, BundleError>)
    ensures r == CompileOperations(parse, apis, overrides, defaults, systemManaged)
  {
    var operations: seq<Operation> := [];
    var i := 0;
    while i < |apis|
      invariant 0 <= i <= |apis|
      invariant CompileOperations(parse, apis[..i], overrides, defaults, systemManaged) == Ok(operations)
    {
      var compiled := CompileOperation(parse, apis[i], overrides, defaults, systemManaged);
      NextCompiled(parse, apis, i, overrides, defaults, systemManaged, operations);
      if compiled.Err? {
        FirstErrorStays(parse, apis, i + 1, overrides, defaults, systemManaged);
        return Err(compiled.error);
      }
      operations := operations + [compiled.value];
      i := i + 1;
    }
    assert apis[..i] == apis;
    r := Ok(operations);
  }

  /** The closing loop of `compileProxyBundle`, over the configured operation ids. */
  method CheckOverrides(overrides: seq<(string, Json)>, apis: seq<ApiOperation>) returns (known: bool)
    ensures known == AllKnown(overrides, apis)
  {
    var i := 0;
    while i < |overrides|
      invariant 0 <= i <= |overrides|
      invariant forall k :: 0 <= k < i ==> IsDeclared(overrides[k].0, apis)
    {
      if !IsDeclared(overrides[i].0, apis) {
        return false;
      }
      i := i + 1;
    }
    known := true;
  }

  /** `compileProxyBundle`. */
  method CompileProxyBundle(parse: Parser, apis: seq<ApiOperation>, gateway: seq<(string, Json)>, systemManaged: bool)
    returns (r: Result<CompiledBundle, BundleError>)
    ensures r == Compile(parse, apis, gateway, systemManaged)
  {
    var inspection := InspectOperations(apis);
    if inspection.Err? { return Err(inspection.error); }
    if Get(gateway, "apiVersion") != Some(Str("gateway.platform/v1")) {
      return Err(InvalidGatewayConfig);
    }
    var basePath := NormalizeBasePath(Get(gateway, "basePath"));
    if basePath.Err? { return Err(basePath.error); }
    var defaults := ObjectOrEmpty(Get(gateway, "defaults"));
    if defaults.Err? { return Err(defaults.error); }
    var defaultPolicies := CompilePolicies(parse, Get(defaults.value, "policies"), systemManaged);
    if defaultPolicies.Err? { return Err(defaultPolicies.error); }
    var overrides := ObjectOrEmpty(Get(gateway, "operations"));
    if overrides.Err? { return Err(overrides.error); }
    var operations := PushOperations(parse, inspection.value, overrides.value, defaultPolicies.value, systemManaged);
    if operations.Err? { return Err(operations.error); }
    var known := CheckOverrides(overrides.value, inspection.value);
    r := if known then Ok(CompiledBundle(basePath.value, operations.value)) else Err(UnknownOperation);
  }

  // ------------------------------------------- the checks a gateway makes again

  predicate Truthy(s: Option<string>) {
    s.Some? && s.value != ""
  }

  /** The policies with their configurations parsed a second time. */
  function Reparse(parse: Parser, policies: seq<Policy>): Option<seq<Policy>> {
    if policies == [] then Some([])
    else
      var p := policies[0];
      match (parse(p.kind, Some(p.config)), Reparse(parse, policies[1..]))
      case (Some(config), Some(rest)) => Some([p.(config := config)] + rest)
      case _ => None
  }

  /** The loader's row-to-endpoint mapping: None where it throws. */
  function LoadOperation(parse: Parser, op: Operation, upstream: Option<string>): Option<Operation> {
    match Reparse(parse, op.policies)
    case None => None
    case Some(policies) =>
      var types := Enabled(policies);
      if Authentications(types) > 1 then None
      else if op.mode.Local? && !HasTerminal(types) then None
      else if op.mode.Forward? && !Truthy(op.targetPath) then None
      else if op.mode.Forward? && !Truthy(upstream) then None
      else if OAuthToken in types && !op.mode.Local? then None
      else if JwksEndpoint in types && !op.mode.Local? then None
      else Some(op.(policies := policies))
  }

  /** `validateProxyConfiguration` on one endpoint. */
  predicate ValidatorAccepts(op: Operation, upstream: Option<string>) {
    var types := Enabled(op.policies);
    && Authentications(types) <= 1
    && (op.mode.Local? ==> HasTerminal(types))
    && (op.mode.Forward? ==> Truthy(op.targetPath) && Truthy(upstream))
    && (OAuthToken in types || JwksEndpoint in types ==> op.mode.Local?)
  }

  /** The guard `deployProxyRevision` puts on the upstream. */
  predicate UpstreamSuffices(operations: seq<Operation>, upstream: Option<string>) {
    (exists op :: op in operations && op.mode.Forward?) ==> Truthy(upstream)
  }

  /** Parsing what the parser produced gives the same configuration back. */
  ghost predicate ParserIsIdempotent(parse: Parser) {
    forall t, c :: parse(t, c).Some? ==> parse(t, Some(parse(t, c).value)) == parse(t, c)
  }

  ghost predicate IsParsed(parse: Parser, p: Policy) {
    exists c :: parse(p.kind, c) == Some(p.config)
  }

  /** What every compiled operation satisfies. */
  ghost predicate WellCompiled(parse: Parser, op: Operation, systemManaged: bool) {
    && (forall i :: 0 <= i < |op.policies| ==>
          && op.policies[i].order == i + 1
          && IsAllowed(op.policies[i].kind, systemManaged)
          && IsParsed(parse, op.policies[i]))
    && Authentications(Enabled(op.policies)) <= 1
    && (op.mode.Local? ==> systemManaged && op.targetPath.None? && HasTerminal(Enabled(op.policies)))
    && (op.mode.Forward? ==> op.targetPath.Some?)
    && (Truthy(op.targetPath) ==> TargetPathIsValid(op.path, op.targetPath.value))
  }

  ghost predicate PoliciesCompiled(parse: Parser, ps: seq<Policy>, systemManaged: bool) {
    forall i :: 0 <= i < |ps| ==>
      ps[i].order == i + 1 && IsAllowed(ps[i].kind, systemManaged) && IsParsed(parse, ps[i])
  }

  lemma {:induction false} CompiledPolicies(parse: Parser, items: seq<Json>, systemManaged: bool)
    requires CompileEach(parse, items, systemManaged).Ok?
    ensures |CompileEach(parse, items, systemManaged).value| == |items|
    ensures PoliciesCompiled(parse, CompileEach(parse, items, systemManaged).value, systemManaged)
  {
    if items != [] {
      CompiledPolicies(parse, items[..|items| - 1], systemManaged);
      var last := CompilePolicy(parse, items[|items| - 1], |items|, systemManaged).value;
      assert IsParsed(parse, last);
    }
  }

  lemma CompiledPolicyList(parse: Parser, value: Option<Json>, systemManaged: bool)
    requires CompilePolicies(parse, value, systemManaged).Ok?
    ensures PoliciesCompiled(parse, CompilePolicies(parse, value, systemManaged).value, systemManaged)
    ensures Authentications(Enabled(CompilePolicies(parse, value, systemManaged).value)) <= 1
  {
    if value.Some? {
      CompiledPolicies(parse, value.value.items, systemManaged);
    }
  }

  ghost predicate IsCompiledFrom(parse: Parser, op: Operation, api: ApiOperation, systemManaged: bool) {
    WellCompiled(parse, op, systemManaged) && op.operationId == api.operationId
  }

  ghost predicate AreCompiledFrom(parse: Parser, ops: seq<Operation>, apis: seq<ApiOperation>, systemManaged: bool) {
    |ops| == |apis| && forall i :: 0 <= i < |ops| ==> IsCompiledFrom(parse, ops[i], apis[i], systemManaged)
  }

  lemma CompiledOperation(
    parse: Parser, api: ApiOperation, overrides: seq<(string, Json)>, defaults: seq<Policy>, systemManaged: bool)
    requires CompileOperation(parse, api, overrides, defaults, systemManaged).Ok?
    requires PoliciesCompiled(parse, defaults, systemManaged) && Authentications(Enabled(defaults)) <= 1
    ensures IsCompiledFrom(parse, CompileOperation(parse, api, overrides, defaults, systemManaged).value, api, systemManaged)
  {
    PoliciesForAreCompiled(parse, Get(OverrideOf(overrides, api.operationId).fields, "policies"), defaults, systemManaged);
  }

  lemma PoliciesForAreCompiled(parse: Parser, own: Option<Json>, defaults: seq<Policy>, systemManaged: bool)
    requires PoliciesFor(parse, own, defaults, systemManaged).Ok?
    requires PoliciesCompiled(parse, defaults, systemManaged) && Authentications(Enabled(defaults)) <= 1
    ensures var ps := PoliciesFor(parse, own, defaults, systemManaged).value;
            PoliciesCompiled(parse, ps, systemManaged) && Authentications(Enabled(ps)) <= 1
  {
    if own.Some? {
      CompiledPolicyList(parse, own, systemManaged);
    }
  }

  lemma OneMoreCompiled(
    parse: Parser, front: seq<Operation>, last: Operation, apis: seq<ApiOperation>, systemManaged: bool)
    requires apis != [] && AreCompiledFrom(parse, front, apis[..|apis| - 1], systemManaged)
    requires IsCompiledFrom(parse, last, apis[|apis| - 1], systemManaged)
    ensures AreCompiledFrom(parse, front + [last], apis, systemManaged)
  {}

  lemma {:induction false} CompiledOperations(
    parse: Parser, apis: seq<ApiOperation>, overrides: seq<(string, Json)>, defaults: seq<Policy>, systemManaged: bool)
    requires CompileOperations(parse, apis, overrides, defaults, systemManaged).Ok?
    requires PoliciesCompiled(parse, defaults, systemManaged) && Authentications(Enabled(defaults)) <= 1
    ensures AreCompiledFrom(parse, CompileOperations(parse, apis, overrides, defaults, systemManaged).value, apis, systemManaged)
    decreases |apis|
  {
    if apis != [] {
      var n := |apis| - 1;
      FrontIsCompiled(parse, apis, overrides, defaults, systemManaged);
      CompiledOperations(parse, apis[..n], overrides, defaults, systemManaged);
      CompiledOperation(parse, apis[n], overrides, defaults, systemManaged);
      var front := CompileOperations(parse, apis[..n], overrides, defaults, systemManaged).value;
      var last := CompileOperation(parse, apis[n], overrides, defaults, systemManaged).value;
      NextCompiled(parse, apis, n, overrides, defaults, systemManaged, front);
      TakeAll(apis);
      OneMoreCompiled(parse, front, last, apis, systemManaged);
    }
  }

  lemma FrontIsCompiled(
    parse: Parser, apis: seq<ApiOperation>, overrides: seq<(string, Json)>, defaults: seq<Policy>, systemManaged: bool)
    requires apis != [] && CompileOperations(parse, apis, overrides, defaults, systemManaged).Ok?
    ensures CompileOperations(parse, apis[..|apis| - 1], overrides, defaults, systemManaged).Ok?
    ensures CompileOperation(parse, apis[|apis| - 1], overrides, defaults, systemManaged).Ok?
  {}

  /** An accepted bundle has operations, with different ids, and each is well compiled. */
  lemma CompiledBundleIsWellFormed(parse: Parser, apis: seq<ApiOperation>, gateway: seq<(string, Json)>, systemManaged: bool)
    requires Compile(parse, apis, gateway, systemManaged).Ok?
    ensures var ops := Compile(parse, apis, gateway, systemManaged).value.operations;
            && ops != []
            && (forall i, j :: 0 <= i < j < |ops| ==> ops[i].operationId != ops[j].operationId)
            && (forall op :: op in ops ==> WellCompiled(parse, op, systemManaged))
  {
    CollectedIdsDiffer(apis);
    InspectedBundle(parse, Inspect(apis).value, gateway, systemManaged);
  }

  lemma InspectedBundle(parse: Parser, apis: seq<ApiOperation>, gateway: seq<(string, Json)>, systemManaged: bool)
    requires CompileInspected(parse, apis, gateway, systemManaged).Ok?
    ensures AreCompiledFrom(parse, CompileInspected(parse, apis, gateway, systemManaged).value.operations, apis, systemManaged)
  {
    var defaults := ObjectOrEmpty(Get(gateway, "defaults")).value;
    var overrides := ObjectOrEmpty(Get(gateway, "operations")).value;
    CompiledPolicyList(parse, Get(defaults, "policies"), systemManaged);
    var defaultPolicies := CompilePolicies(parse, Get(defaults, "policies"), systemManaged).value;
    CompiledOperations(parse, apis, overrides, defaultPolicies, systemManaged);
  }

  lemma {:induction false} ReparseChangesNothing(parse: Parser, ps: seq<Policy>)
    requires ParserIsIdempotent(parse) && forall i :: 0 <= i < |ps| ==> IsParsed(parse, ps[i])
    ensures Reparse(parse, ps) == Some(ps)
  {
    if ps != [] {
      ReparseChangesNothing(parse, ps[1..]);
      var c :| parse(ps[0].kind, c) == Some(ps[0].config);
      assert [ps[0]] + ps[1..] == ps;
    }
  }

  lemma EnabledIsAllowed(parse: Parser, ps: seq<Policy>, systemManaged: bool)
    requires forall i :: 0 <= i < |ps| ==> IsAllowed(ps[i].kind, systemManaged)
    ensures forall t :: t in Enabled(ps) ==> IsAllowed(t, systemManaged)
  {}

  /** A compiled operation deployed with the upstream the deploy guard asks for is
      loaded unchanged, and passes the validator, exactly when it is local or has a
      non-empty target path and no enabled terminal policy; for business proxies
      only the target path matters. */
  lemma CompiledOperationLoadsIff(parse: Parser, op: Operation, systemManaged: bool, upstream: Option<string>)
    requires ParserIsIdempotent(parse) && WellCompiled(parse, op, systemManaged)
    requires op.mode.Forward? ==> Truthy(upstream)
    ensures LoadOperation(parse, op, upstream)
         == if op.mode.Forward? && (op.targetPath == Some("") || HasTerminal(Enabled(op.policies))) then None else Some(op)
    ensures ValidatorAccepts(op, upstream) <==> LoadOperation(parse, op, upstream).Some?
    ensures !systemManaged ==> op.mode.Forward? && !HasTerminal(Enabled(op.policies))
  {
    ReparseChangesNothing(parse, op.policies);
    EnabledIsAllowed(parse, op.policies, systemManaged);
  }

  /** The empty target path is what the compiler lets through: any bundle that
      declares one is accepted as far as that operation goes, and refused at load. */
  lemma EmptyTargetCompilesButNeverLoads(
    parse: Parser, api: ApiOperation, defaults: seq<Policy>, upstream: Option<string>)
    ensures var overrides := [(api.operationId, Obj([("targetPath", Str(""))]))];
            && CompileOperation(parse, api, overrides, defaults, false)
               == Ok(Operation(api.operationId, api.verb, Forward, api.path, Some(""), defaults))
            && LoadOperation(parse, CompileOperation(parse, api, overrides, defaults, false).value, upstream).None?
  {
    var fields := [("targetPath", Str(""))];
    assert fields[1..] == [];
  }

  /** An operation that the gateway document does not list takes the defaults, unless its id
      is the name of an inherited function: then the bundle is refused. */
  lemma UnlistedCompilesIff(
    parse: Parser, api: ApiOperation, overrides: seq<(string, Json)>, defaults: seq<Policy>, systemManaged: bool)
    requires Get(overrides, api.operationId).None? && api.path != "" && api.path[0] == '/'
    ensures var compiled := CompileOperation(parse, api, overrides, defaults, systemManaged);
            && (compiled.Ok? <==> api.operationId !in INHERITED)
            && (compiled.Ok? ==>
                  compiled.value == Operation(api.operationId, api.verb, Forward, api.path, Some(api.path), defaults))
  {
    AmongIsIn(api.operationId, INHERITED);
  }

  lemma AmongIsIn(name: string, names: seq<string>)
    ensures IsAmong(name, names) <==> name in names
  {}

  /** The documented rule, exactly one authentication policy on a business
      operation, holds exactly when some policy list applies to the operation. */
  lemma BusinessAuthenticatesIff(
    parse: Parser, api: ApiOperation, overrides: seq<(string, Json)>, defaultList: Option<Json>)
    requires CompilePolicies(parse, defaultList, false).Ok?
    requires CompileOperation(parse, api, overrides, CompilePolicies(parse, defaultList, false).value, false).Ok?
    ensures var op := CompileOperation(parse, api, overrides, CompilePolicies(parse, defaultList, false).value, false).value;
            var override := OverrideOf(overrides, api.operationId);
            Authentications(Enabled(op.policies)) == 1
            <==> defaultList.Some? || (override.Obj? && Get(override.fields, "policies").Some?)
  {}
}
