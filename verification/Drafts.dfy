/** The admin panel's proxy draft: the gateway document it emits, how that document is
    read back, and what the compiler makes of it. */
module Drafts {
  import opened Schema
  import opened Seqs
  import opened Templates
  import opened Bundle
  import opened Whitespace

  datatype DraftType = ApiKeyDraft | OAuthDraft | MtlsDraft | RateLimitDraft

  /** The optional fields are the ones their type's form shows; client-side ids are left out. */
  datatype EditablePolicy = EditablePolicy(
    kind: DraftType,
    enabled: bool,
    failsOpen: bool,
    header: Option<string>,
    audience: Option<string>,
    scopes: Option<seq<string>>,
    limit: Option<int>,
    window: Option<int>)

  datatype OperationDraft = OperationDraft(
    operationId: string, verb: Verb, path: string, targetPath: string, inherits: bool, policies: seq<EditablePolicy>)

  datatype Draft = Draft(basePath: string, defaults: seq<EditablePolicy>, operations: seq<OperationDraft>)

  function TypeOf(t: DraftType): PolicyType {
    match t
    case ApiKeyDraft => ApiKeyAuth
    case OAuthDraft => OAuthAccessToken
    case MtlsDraft => MtlsAuth
    case RateLimitDraft => RateLimit
  }

  function NameOf(t: DraftType): string {
    match t
    case ApiKeyDraft => "api-key-auth"
    case OAuthDraft => "oauth-access-token"
    case MtlsDraft => "mtls-auth"
    case RateLimitDraft => "rate-limit"
  }

  function DraftTypeNamed(name: string): Option<DraftType> {
    if name == "api-key-auth" then Some(ApiKeyDraft)
    else if name == "oauth-access-token" then Some(OAuthDraft)
    else if name == "mtls-auth" then Some(MtlsDraft)
    else if name == "rate-limit" then Some(RateLimitDraft)
    else None
  }

  function OrElse<T>(value: Option<T>, otherwise: T): T {
    if value.Some? then value.value else otherwise
  }

  // ------------------------------------------------------------------------ writing

  function Strings(scopes: seq<string>): (r: seq<Json>)
    ensures |r| == |scopes| && forall i :: 0 <= i < |scopes| ==> r[i] == Str(scopes[i])
  {
    if scopes == [] then [] else [Str(scopes[0])] + Strings(scopes[1..])
  }

  function HeaderOf(p: EditablePolicy): string {
    var header := Trim(OrElse(p.header, ""));
    if header == "" then "x-api-key" else header
  }

  function Number(key: string, value: Option<int>): seq<(string, Json)> {
    if value.Some? then [(key, Num(value.value))] else []
  }

  /** The configuration members of the policy's own type. */
  function OwnFields(p: EditablePolicy): seq<(string, Json)> {
    match p.kind
    case ApiKeyDraft => [("header", Str(HeaderOf(p)))]
    case OAuthDraft =>
      [("audience", Str(Trim(OrElse(p.audience, ""))))] + [("requiredScopes", Arr(Strings(OrElse(p.scopes, []))))]
    case MtlsDraft => []
    case RateLimitDraft => Number("limit", p.limit) + Number("windowSeconds", p.window)
  }

  function ConfigOf(p: EditablePolicy): seq<(string, Json)> {
    [("failureMode", Str(if p.failsOpen then "open" else "closed"))] + OwnFields(p)
  }

  /** `serializePolicy`. */
  function SerializePolicy(p: EditablePolicy): Json {
    Obj([("type", Str(NameOf(p.kind)))] + ([("enabled", Bool(p.enabled))] + [("config", Obj(ConfigOf(p)))]))
  }

  function SerializeAll(ps: seq<EditablePolicy>): (r: seq<Json>)
    ensures |r| == |ps| && forall i :: 0 <= i < |ps| ==> r[i] == SerializePolicy(ps[i])
  {
    if ps == [] then [] else [SerializePolicy(ps[0])] + SerializeAll(ps[1..])
  }

  function SerializeOperation(o: OperationDraft): Json {
    Obj([("targetPath", Str(Trim(o.targetPath)))] + if o.inherits then [] else [("policies", Arr(SerializeAll(o.policies)))])
  }

  function Overrides(operations: seq<OperationDraft>): (r: seq<(string, Json)>)
    ensures |r| == |operations|
    ensures forall i :: 0 <= i < |operations| ==> r[i] == (operations[i].operationId, SerializeOperation(operations[i]))
  {
    if operations == [] then []
    else [(operations[0].operationId, SerializeOperation(operations[0]))] + Overrides(operations[1..])
  }

  /** `gatewayDocument`. */
  function GatewayDocument(d: Draft): seq<(string, Json)> {
    [("apiVersion", Str("gateway.platform/v1"))]
    + ([("basePath", Str(Trim(d.basePath)))]
       + ([("defaults", Obj([("policies", Arr(SerializeAll(d.defaults)))]))] + [("operations", Obj(Overrides(d.operations)))]))
  }

  // ------------------------------------------------------------------------ reading

  function FieldsOf(value: Option<Json>): seq<(string, Json)> {
    if value.Some? && value.value.Obj? then value.value.fields else []
  }

  function StringAt(fields: seq<(string, Json)>, key: string): Option<string> {
    match Get(fields, key)
    case Some(Str(s)) => Some(s)
    case _ => None
  }

  function NumberAt(fields: seq<(string, Json)>, key: string): Option<int> {
    match Get(fields, key)
    case Some(Num(n)) => Some(n)
    case _ => None
  }

  /** `stringArray`. */
  function StringArray(value: Option<Json>): seq<string> {
    if value.Some? && value.value.Arr? then OnlyStrings(value.value.items) else []
  }

  function OnlyStrings(items: seq<Json>): seq<string> {
    if items == [] then [] else (if items[0].Str? then [items[0].s] else []) + OnlyStrings(items[1..])
  }

  function EditableFrom(kind: DraftType, enabled: bool, config: seq<(string, Json)>): EditablePolicy {
    var failsOpen := Get(config, "failureMode") == Some(Str("open"));
    match kind
    case ApiKeyDraft =>
      EditablePolicy(kind, enabled, failsOpen, Some(OrElse(StringAt(config, "header"), "x-api-key")), None, None, None, None)
    case OAuthDraft =>
      EditablePolicy(kind, enabled, failsOpen, None, Some(OrElse(StringAt(config, "audience"), "")),
                     Some(StringArray(Get(config, "requiredScopes"))), None, None)
    case MtlsDraft => EditablePolicy(kind, enabled, failsOpen, None, None, None, None, None)
    case RateLimitDraft =>
      EditablePolicy(kind, enabled, failsOpen, None, None, None, Some(OrElse(NumberAt(config, "limit"), 100)),
                     Some(OrElse(NumberAt(config, "windowSeconds"), 60)))
  }

  /** `editablePolicyFromUnknown`. */
  function EditablePolicyFrom(value: Json): Option<EditablePolicy> {
    if !value.Obj? || StringAt(value.fields, "type").None? then None
    else
      match DraftTypeNamed(StringAt(value.fields, "type").value)
      case None => None
      case Some(kind) =>
        var enabled := match Get(value.fields, "enabled") case None => true case Some(e) => e == Bool(true);
        Some(EditableFrom(kind, enabled, FieldsOf(Get(value.fields, "config"))))
  }

  function PoliciesFrom(items: seq<Json>): seq<EditablePolicy> {
    if items == [] then []
    else
      var first := EditablePolicyFrom(items[0]);
      (if first.Some? then [first.value] else []) + PoliciesFrom(items[1..])
  }

  function PolicyList(value: Option<Json>): seq<EditablePolicy> {
    if value.Some? && value.value.Arr? then PoliciesFrom(value.value.items) else []
  }

  function HydrateOperation(o: OperationDraft, overrides: seq<(string, Json)>): OperationDraft {
    var override := FieldsOf(Get(overrides, o.operationId));
    var declared := Get(override, "policies");
    var overridden := declared.Some? && declared.value.Arr?;
    o.(targetPath := OrElse(StringAt(override, "targetPath"), o.path),
       inherits := !overridden,
       policies := if overridden then PolicyList(declared) else [])
  }

  function HydrateOperations(operations: seq<OperationDraft>, overrides: seq<(string, Json)>): (r: seq<OperationDraft>)
    ensures |r| == |operations| && forall i :: 0 <= i < |operations| ==> r[i] == HydrateOperation(operations[i], overrides)
  {
    if operations == [] then [] else [HydrateOperation(operations[0], overrides)] + HydrateOperations(operations[1..], overrides)
  }

  /** `hydrateGatewaySource` on the parsed document. */
  function Hydrate(d: Draft, document: seq<(string, Json)>): Draft {
    Draft(
      OrElse(StringAt(document, "basePath"), ""),
      PolicyList(Get(FieldsOf(Get(document, "defaults")), "policies")),
      HydrateOperations(d.operations, FieldsOf(Get(document, "operations"))))
  }

  // ----------------------------------------------------------------- the round trip

  /** A policy with its text trimmed and the fields of other types cleared. */
  function NormalizePolicy(p: EditablePolicy): EditablePolicy {
    match p.kind
    case ApiKeyDraft => EditablePolicy(p.kind, p.enabled, p.failsOpen, Some(HeaderOf(p)), None, None, None, None)
    case OAuthDraft =>
      EditablePolicy(p.kind, p.enabled, p.failsOpen, None, Some(Trim(OrElse(p.audience, ""))), Some(OrElse(p.scopes, [])), None, None)
    case MtlsDraft => EditablePolicy(p.kind, p.enabled, p.failsOpen, None, None, None, None, None)
    case RateLimitDraft =>
      EditablePolicy(p.kind, p.enabled, p.failsOpen, None, None, None, Some(OrElse(p.limit, 100)), Some(OrElse(p.window, 60)))
  }

  function NormalizeAll(ps: seq<EditablePolicy>): (r: seq<EditablePolicy>)
    ensures |r| == |ps| && forall i :: 0 <= i < |ps| ==> r[i] == NormalizePolicy(ps[i])
  {
    if ps == [] then [] else [NormalizePolicy(ps[0])] + NormalizeAll(ps[1..])
  }

  function NormalizeOperation(o: OperationDraft): OperationDraft {
    o.(targetPath := Trim(o.targetPath), policies := if o.inherits then [] else NormalizeAll(o.policies))
  }

  function NormalizeOperations(operations: seq<OperationDraft>): (r: seq<OperationDraft>)
    ensures |r| == |operations| && forall i :: 0 <= i < |operations| ==> r[i] == NormalizeOperation(operations[i])
  {
    if operations == [] then [] else [NormalizeOperation(operations[0])] + NormalizeOperations(operations[1..])
  }

  /** The draft up to trimming, irrelevant fields and the unused policies of inheriting operations. */
  function NormalizeDraft(d: Draft): Draft {
    Draft(Trim(d.basePath), NormalizeAll(d.defaults), NormalizeOperations(d.operations))
  }

  ghost predicate HasDistinctIds(operations: seq<OperationDraft>) {
    forall i, j :: 0 <= i < j < |operations| ==> operations[i].operationId != operations[j].operationId
  }

  /** The same operations as far as the OpenAPI document declares them. */
  ghost predicate DeclareTheSame(a: seq<OperationDraft>, b: seq<OperationDraft>) {
    |a| == |b| && forall i :: 0 <= i < |a| ==>
      a[i].operationId == b[i].operationId && a[i].verb == b[i].verb && a[i].path == b[i].path
  }

  lemma {:induction false} StringsComeBack(scopes: seq<string>)
    ensures OnlyStrings(Strings(scopes)) == scopes
    decreases |scopes|
  {
    if scopes != [] {
      StringsComeBack(scopes[1..]);
      assert Strings(scopes)[1..] == Strings(scopes[1..]);
      assert [scopes[0]] + scopes[1..] == scopes;
    }
  }

  lemma GetHead(key: string, value: Json, rest: seq<(string, Json)>, wanted: string)
    ensures Get([(key, value)] + rest, wanted) == if key == wanted then Some(value) else Get(rest, wanted)
  {}

  lemma GetOnly(key: string, value: Json, wanted: string)
    ensures Get([(key, value)], wanted) == if key == wanted then Some(value) else None
  {}

  /** Looking keys up in documents of two to four members. */
  lemma GetTwo(a: string, x: Json, b: string, y: Json)
    requires a != b
    ensures Get([(a, x)] + [(b, y)], a) == Some(x) && Get([(a, x)] + [(b, y)], b) == Some(y)
    ensures forall key :: key != a && key != b ==> Get([(a, x)] + [(b, y)], key) == None
  {}

  lemma GetThree(a: string, x: Json, b: string, y: Json, c: string, z: Json)
    requires a != b && a != c && b != c
    ensures var fields := [(a, x)] + ([(b, y)] + [(c, z)]);
            Get(fields, a) == Some(x) && Get(fields, b) == Some(y) && Get(fields, c) == Some(z)
  {
    GetTwo(b, y, c, z);
    GetHead(a, x, [(b, y)] + [(c, z)], a);
    GetHead(a, x, [(b, y)] + [(c, z)], b);
    GetHead(a, x, [(b, y)] + [(c, z)], c);
  }

  lemma ScopedConfigComesBack(audience: string, scopes: seq<string>)
    ensures var config := [("audience", Str(audience))] + [("requiredScopes", Arr(Strings(scopes)))];
            StringAt(config, "audience") == Some(audience) && StringArray(Get(config, "requiredScopes")) == scopes
  {
    StringsComeBack(scopes);
    GetTwo("audience", Str(audience), "requiredScopes", Arr(Strings(scopes)));
  }

  /** A configuration's first member is the failure mode; the others are found behind it. */
  lemma ConfigFields(p: EditablePolicy)
    ensures var config := ConfigOf(p);
            && Get(config, "failureMode") == Some(Str(if p.failsOpen then "open" else "closed"))
            && (p.kind.ApiKeyDraft? ==> StringAt(config, "header") == Some(HeaderOf(p)))
  {
    var mode := Str(if p.failsOpen then "open" else "closed");
    GetHead("failureMode", mode, OwnFields(p), "failureMode");
    GetHead("failureMode", mode, OwnFields(p), "header");
    GetOnly("header", Str(HeaderOf(p)), "header");
  }

  lemma OAuthFields(p: EditablePolicy)
    requires p.kind.OAuthDraft?
    ensures var config := ConfigOf(p);
            && StringAt(config, "audience") == Some(Trim(OrElse(p.audience, "")))
            && StringArray(Get(config, "requiredScopes")) == OrElse(p.scopes, [])
  {
    var mode := Str(if p.failsOpen then "open" else "closed");
    ScopedConfigComesBack(Trim(OrElse(p.audience, "")), OrElse(p.scopes, []));
    GetHead("failureMode", mode, OwnFields(p), "audience");
    GetHead("failureMode", mode, OwnFields(p), "requiredScopes");
  }

  lemma RateLimitFields(p: EditablePolicy)
    requires p.kind.RateLimitDraft?
    ensures NumberAt(ConfigOf(p), "limit") == p.limit && NumberAt(ConfigOf(p), "windowSeconds") == p.window
  {
    var mode := Str(if p.failsOpen then "open" else "closed");
    GetHead("failureMode", mode, OwnFields(p), "limit");
    GetHead("failureMode", mode, OwnFields(p), "windowSeconds");
    NumbersComeBack(p.limit, p.window);
  }

  lemma NumbersComeBack(limit: Option<int>, window: Option<int>)
    ensures NumberAt(Number("limit", limit) + Number("windowSeconds", window), "limit") == limit
    ensures NumberAt(Number("limit", limit) + Number("windowSeconds", window), "windowSeconds") == window
  {
    var rest := Number("windowSeconds", window);
    if window.Some? {
      GetOnly("windowSeconds", Num(window.value), "limit");
      GetOnly("windowSeconds", Num(window.value), "windowSeconds");
    }
    if limit.Some? {
      GetHead("limit", Num(limit.value), rest, "limit");
      GetHead("limit", Num(limit.value), rest, "windowSeconds");
    } else {
      EmptyFront(rest);
    }
  }

  lemma EditableComesBack(p: EditablePolicy)
    ensures EditableFrom(p.kind, p.enabled, ConfigOf(p)) == NormalizePolicy(p)
  {
    ConfigFields(p);
    if p.kind.OAuthDraft? { OAuthFields(p); }
    if p.kind.RateLimitDraft? { RateLimitFields(p); }
  }

  lemma NamesComeBack(t: DraftType)
    ensures DraftTypeNamed(NameOf(t)) == Some(t)
  {}

  lemma EditableOfFields(
    fields: seq<(string, Json)>, name: string, kind: DraftType, enabled: bool, config: seq<(string, Json)>)
    requires Get(fields, "type") == Some(Str(name)) && DraftTypeNamed(name) == Some(kind)
    requires Get(fields, "enabled") == Some(Bool(enabled)) && Get(fields, "config") == Some(Obj(config))
    ensures EditablePolicyFrom(Obj(fields)) == Some(EditableFrom(kind, enabled, config))
  {}

  lemma PolicyComesBack(p: EditablePolicy)
    ensures EditablePolicyFrom(SerializePolicy(p)) == Some(NormalizePolicy(p))
  {
    PolicyFields(p);
    NamesComeBack(p.kind);
    EditableOfFields(SerializePolicy(p).fields, NameOf(p.kind), p.kind, p.enabled, ConfigOf(p));
    EditableComesBack(p);
  }

  lemma PolicyFields(p: EditablePolicy)
    ensures var fields := SerializePolicy(p).fields;
            && Get(fields, "type") == Some(Str(NameOf(p.kind)))
            && Get(fields, "enabled") == Some(Bool(p.enabled))
            && Get(fields, "config") == Some(Obj(ConfigOf(p)))
  {
    GetThree("type", Str(NameOf(p.kind)), "enabled", Bool(p.enabled), "config", Obj(ConfigOf(p)));
  }

  lemma {:induction false} PoliciesComeBack(ps: seq<EditablePolicy>)
    ensures PoliciesFrom(SerializeAll(ps)) == NormalizeAll(ps)
    decreases |ps|
  {
    if ps != [] {
      PoliciesComeBack(ps[1..]);
      PolicyComesBack(ps[0]);
      assert SerializeAll(ps)[1..] == SerializeAll(ps[1..]);
    }
  }

  lemma {:induction false} OverrideIsFound(operations: seq<OperationDraft>, i: nat)
    requires i < |operations| && HasDistinctIds(operations)
    ensures Get(Overrides(operations), operations[i].operationId) == Some(SerializeOperation(operations[i]))
    decreases |operations|
  {}

  lemma OperationFields(o: OperationDraft)
    ensures var fields := SerializeOperation(o).fields;
            && Get(fields, "targetPath") == Some(Str(Trim(o.targetPath)))
            && Get(fields, "policies") == (if o.inherits then None else Some(Arr(SerializeAll(o.policies))))
            && Get(fields, "mode") == None
  {}

  lemma DocumentFields(d: Draft)
    ensures var document := GatewayDocument(d);
            && Get(document, "apiVersion") == Some(Str("gateway.platform/v1"))
            && Get(document, "basePath") == Some(Str(Trim(d.basePath)))
            && Get(document, "defaults") == Some(Obj([("policies", Arr(SerializeAll(d.defaults)))]))
            && Get(document, "operations") == Some(Obj(Overrides(d.operations)))
            && Get([("policies", Arr(SerializeAll(d.defaults)))], "policies") == Some(Arr(SerializeAll(d.defaults)))
  {
    var defaults := Obj([("policies", Arr(SerializeAll(d.defaults)))]);
    var version, basePath, overrides := Str("gateway.platform/v1"), Str(Trim(d.basePath)), Obj(Overrides(d.operations));
    GetThree("basePath", basePath, "defaults", defaults, "operations", overrides);
    var rest := [("basePath", basePath)] + ([("defaults", defaults)] + [("operations", overrides)]);
    GetHead("apiVersion", version, rest, "apiVersion");
    GetHead("apiVersion", version, rest, "basePath");
    GetHead("apiVersion", version, rest, "defaults");
    GetHead("apiVersion", version, rest, "operations");
    GetOnly("policies", Arr(SerializeAll(d.defaults)), "policies");
  }

  lemma {:induction false} OperationComesBack(operations: seq<OperationDraft>, i: nat, over: OperationDraft)
    requires i < |operations| && HasDistinctIds(operations)
    requires operations[i].operationId == over.operationId && operations[i].verb == over.verb && operations[i].path == over.path
    ensures HydrateOperation(over, Overrides(operations)) == NormalizeOperation(operations[i])
  {
    OverrideIsFound(operations, i);
    OperationFields(operations[i]);
    PoliciesComeBack(operations[i].policies);
  }

  lemma OperationsComeBack(operations: seq<OperationDraft>, over: seq<OperationDraft>)
    requires HasDistinctIds(operations) && DeclareTheSame(operations, over)
    ensures HydrateOperations(over, Overrides(operations)) == NormalizeOperations(operations)
  {
    forall i | 0 <= i < |operations|
      ensures HydrateOperation(over[i], Overrides(operations)) == NormalizeOperation(operations[i])
    {
      OperationComesBack(operations, i, over[i]);
    }
  }

  const FORM_TYPES := ["api-key-auth", "oauth-access-token", "mtls-auth", "rate-limit"]

  lemma FormTypesAre(name: string)
    ensures DraftTypeNamed(name).Some? <==> name in FORM_TYPES
    ensures DraftTypeNamed(name).Some? ==> NameOf(DraftTypeNamed(name).value) == name
  {}

  /** Of any policy list in a document the form reads the entries of its own four types, on
      unless they say otherwise, and skips every other. */
  lemma PolicyIsReadIff(value: Json)
    ensures EditablePolicyFrom(value).Some?
       <==> value.Obj? && StringAt(value.fields, "type").Some? && StringAt(value.fields, "type").value in FORM_TYPES
    ensures EditablePolicyFrom(value).Some? ==>
              var p := EditablePolicyFrom(value).value;
              && Get(value.fields, "type") == Some(Str(NameOf(p.kind)))
              && (p.enabled <==> Get(value.fields, "enabled") == None || Get(value.fields, "enabled") == Some(Bool(true)))
              && (p.failsOpen <==> exists config :: Get(value.fields, "config") == Some(Obj(config)) && FailsOpen(config))
  {
    if value.Obj? && StringAt(value.fields, "type").Some? {
      FormTypesAre(StringAt(value.fields, "type").value);
      var config := FieldsOf(Get(value.fields, "config"));
      assert FailsOpen(config) <==> Get(config, "failureMode") == Some(Str("open"));
    }
  }

  predicate FailsOpen(config: seq<(string, Json)>) {
    Get(config, "failureMode") == Some(Str("open"))
  }

  predicate OverridesPolicies(override: seq<(string, Json)>) {
    Get(override, "policies").Some? && Get(override, "policies").value.Arr?
  }

  /** An operation takes the defaults unless the document lists policies for it. */
  lemma OperationIsReadAs(o: OperationDraft, overrides: seq<(string, Json)>)
    ensures !HydrateOperation(o, overrides).inherits
       <==> exists override :: Get(overrides, o.operationId) == Some(Obj(override)) && OverridesPolicies(override)
    ensures HydrateOperation(o, overrides).inherits ==> HydrateOperation(o, overrides).policies == []
  {
    var override := FieldsOf(Get(overrides, o.operationId));
    if !HydrateOperation(o, overrides).inherits { assert OverridesPolicies(override); }
  }

  /** A header is written trimmed, and a blank one as the platform's. */
  lemma HeaderIsWrittenAs(p: EditablePolicy)
    requires p.kind.ApiKeyDraft?
    ensures StringAt(ConfigOf(p), "header")
         == Some(if p.header == None || forall c :: c in p.header.value ==> IsSpace(c) then "x-api-key" else Trim(p.header.value))
  {
    ConfigFields(p);
    if p.header.Some? { BlankIff(p.header.value); }
  }

  /** Reading back the document a draft emits, over any draft of the same OpenAPI
      operations, recovers the draft: base path, default policies, and for every operation
      its target, whether it overrides the defaults, and with what. */
  lemma DraftComesBack(d: Draft, over: Draft)
    requires HasDistinctIds(d.operations) && DeclareTheSame(d.operations, over.operations)
    ensures Hydrate(over, GatewayDocument(d)) == NormalizeDraft(d)
  {
    DocumentFields(d);
    PoliciesComeBack(d.defaults);
    OperationsComeBack(d.operations, over.operations);
  }
}
