/** The panel's policies under the schemas the compiler parses them with. */
module DraftSchemas {
  import opened Schema
  import opened Bundle
  import opened Whitespace
  import opened Drafts
  import opened PolicySchemas
  import opened DraftMeaning

  lemma HeaderIsText(p: EditablePolicy)
    ensures Trim(HeaderOf(p)) != ""
  {
    TrimTwice(OrElse(p.header, ""));
    assert Trim("x-api-key") == "x-api-key";
  }

  lemma OAuthParsesIff(p: EditablePolicy)
    requires p.kind.OAuthDraft?
    ensures ParsePolicyConfig(OAuthAccessToken, Some(Obj(ConfigOf(p)))).Some? <==> IsValidPolicy(p) && !HasBlankScope(p)
  {
    OAuthMembers(p);
    ThreeMembersParseIff(ShapeOf(OAuthAccessToken), ConfigOf(p));
  }

  lemma OAuthConfig(p: EditablePolicy)
    requires p.kind.OAuthDraft?
    ensures var config := ConfigOf(p);
            && Get(config, "audience") == Some(Str(Trim(OrElse(p.audience, ""))))
            && Get(config, "requiredScopes") == Some(Arr(Strings(OrElse(p.scopes, []))))
  {
    var mode, audience := Str(if p.failsOpen then "open" else "closed"), Trim(OrElse(p.audience, ""));
    GetTwo("audience", Str(audience), "requiredScopes", Arr(Strings(OrElse(p.scopes, []))));
    GetHead("failureMode", mode, OwnFields(p), "audience");
    GetHead("failureMode", mode, OwnFields(p), "requiredScopes");
  }

  lemma MemberParses(f: Field, fields: seq<(string, Json)>, v: Json)
    requires Get(fields, f.name) == Some(v)
    ensures ParseMember(f, fields) == f.parse(v)
  {}

  /** What the schema makes of the panel's members, one by one. */
  lemma OAuthMembers(p: EditablePolicy)
    requires p.kind.OAuthDraft?
    ensures var shape := ShapeOf(OAuthAccessToken);
            && ParseMember(shape[0], ConfigOf(p)).Some? && (ParseMember(shape[1], ConfigOf(p)).Some? <==> IsValidPolicy(p))
            && (ParseMember(shape[2], ConfigOf(p)).Some? <==> !HasBlankScope(p))
  {
    var shape, audience, scopes := ShapeOf(OAuthAccessToken), Trim(OrElse(p.audience, "")), OrElse(p.scopes, []);
    ConfigFields(p);
    OAuthConfig(p);
    OAuthShape();
    MemberParses(shape[0], ConfigOf(p), Str(if p.failsOpen then "open" else "closed"));
    MemberParses(shape[1], ConfigOf(p), Str(audience));
    MemberParses(shape[2], ConfigOf(p), Arr(Strings(scopes)));
    TrimTwice(OrElse(p.audience, ""));
    TextsParseIff(scopes);
  }

  lemma RateLimitParsesIff(p: EditablePolicy)
    requires p.kind.RateLimitDraft?
    ensures ParsePolicyConfig(RateLimit, Some(Obj(ConfigOf(p)))).Some? <==> IsValidPolicy(p)
  {
    RateLimitMembers(p);
    ThreeMembersParseIff(ShapeOf(RateLimit), ConfigOf(p));
  }

  lemma RateLimitMembers(p: EditablePolicy)
    requires p.kind.RateLimitDraft?
    ensures var shape := ShapeOf(RateLimit);
            && ParseMember(shape[0], ConfigOf(p)).Some?
            && (ParseMember(shape[1], ConfigOf(p)).Some? <==> OrElse(p.limit, 0) > 0)
            && (ParseMember(shape[2], ConfigOf(p)).Some? <==> OrElse(p.window, 0) > 0)
  {
    ConfigFields(p);
    RateLimitFields(p);
  }

  lemma ApiKeyParses(p: EditablePolicy)
    requires p.kind.ApiKeyDraft?
    ensures ParsePolicyConfig(ApiKeyAuth, Some(Obj(ConfigOf(p)))).Some?
  {
    ConfigFields(p);
    HeaderIsText(p);
    ConfigParsesIff(ApiKeyAuth, ConfigOf(p));
  }

  lemma MtlsParses(p: EditablePolicy)
    requires p.kind.MtlsDraft?
    ensures ParsePolicyConfig(MtlsAuth, Some(Obj(ConfigOf(p)))).Some?
  {
    ConfigFields(p);
    ConfigParsesIff(MtlsAuth, ConfigOf(p));
  }

  /** The form validates everything the schema asks for, blank scopes excepted, and more only
      in asking for a header where the schema has a default. */
  lemma PolicyParsesIff(p: EditablePolicy)
    ensures ParsePolicyConfig(TypeOf(p.kind), Some(Obj(ConfigOf(p)))).Some?
       <==> (p.kind.ApiKeyDraft? || IsValidPolicy(p)) && !HasBlankScope(p)
  {
    match p.kind
    case ApiKeyDraft => ApiKeyParses(p);
    case OAuthDraft => OAuthParsesIff(p);
    case MtlsDraft => MtlsParses(p);
    case RateLimitDraft => RateLimitParsesIff(p);
  }

  predicate NoBlankScopes(ps: seq<EditablePolicy>) {
    forall i :: 0 <= i < |ps| ==> !HasBlankScope(ps[i])
  }

  /** Every API-key policy names its header. */
  predicate HeadersAreGiven(ps: seq<EditablePolicy>) {
    forall i :: 0 <= i < |ps| && ps[i].kind.ApiKeyDraft? ==> Trim(OrElse(ps[i].header, "")) != ""
  }

  lemma ListParsesIff(ps: seq<EditablePolicy>)
    ensures PoliciesAreValid(ps) ==> (AreAdmitted(ParsePolicyConfig, ps) <==> NoBlankScopes(ps))
    ensures IsInForce(ParsePolicyConfig, ps) ==> (PoliciesAreValid(ps) <==> HeadersAreGiven(ps))
  {
    forall i | 0 <= i < |ps|
      ensures ParsePolicyConfig(TypeOf(ps[i].kind), Some(Obj(ConfigOf(ps[i])))).Some?
         <==> (ps[i].kind.ApiKeyDraft? || IsValidPolicy(ps[i])) && !HasBlankScope(ps[i])
    {
      PolicyParsesIff(ps[i]);
    }
  }

  /** No policy list of the draft that is used asks for a blank scope. */
  predicate UsesNoBlankScope(d: Draft) {
    && NoBlankScopes(d.defaults)
    && forall i :: 0 <= i < |d.operations| ==> !d.operations[i].inherits ==> NoBlankScopes(d.operations[i].policies)
  }

  /** With the schemas the platform has: a draft the routing step accepts compiles exactly
      when it has operations, with different ids, and no policy list that is used asks for a
      blank scope. */
  lemma CompilesIffNoBlankScopes(d: Draft)
    requires DraftIsValid(d) && HasTrimmedIds(d.operations)
    ensures Compile(ParsePolicyConfig, ApisOf(d.operations), GatewayDocument(d), false).Ok?
       <==> CouldBeInspected(d.operations) && UsesNoBlankScope(d)
  {
    ValidDraftsCompileIff(ParsePolicyConfig, d);
    ListParsesIff(d.defaults);
    forall i | 0 <= i < |d.operations| && !d.operations[i].inherits
      ensures AreAdmitted(ParsePolicyConfig, d.operations[i].policies) <==> NoBlankScopes(d.operations[i].policies)
    {
      assert OperationIsValid(d.operations[i]);
      ListParsesIff(d.operations[i].policies);
    }
  }

  /** No target is typed with anything before its slash, and every API-key policy in use names
      its header. */
  predicate IsTypedInFull(d: Draft) {
    && HeadersAreGiven(d.defaults)
    && forall i :: 0 <= i < |d.operations| ==>
         && d.operations[i].targetPath != "" && d.operations[i].targetPath[0] == '/'
         && (!d.operations[i].inherits ==> HeadersAreGiven(d.operations[i].policies))
  }

  /** The other way round: of the drafts that compile the panel's routing step accepts exactly
      those typed in full. It asks for nothing else that the compiler does not ask for. */
  lemma PanelAcceptsIff(d: Draft)
    requires HasTrimmedIds(d.operations) && Compile(ParsePolicyConfig, ApisOf(d.operations), GatewayDocument(d), false).Ok?
    ensures DraftIsValid(d) <==> IsTypedInFull(d)
  {
    DraftCompilesIff(ParsePolicyConfig, d);
    ValidBasePath(Trim(d.basePath));
    ListParsesIff(d.defaults);
    forall i | 0 <= i < |d.operations|
      ensures OperationIsValid(d.operations[i])
         <==> && d.operations[i].targetPath != "" && d.operations[i].targetPath[0] == '/'
              && (!d.operations[i].inherits ==> HeadersAreGiven(d.operations[i].policies))
    {
      OperationIsTypedInFullIff(d.operations[i]);
    }
  }

  lemma OperationIsTypedInFullIff(o: OperationDraft)
    requires IsCompilable(ParsePolicyConfig, o)
    ensures OperationIsValid(o)
       <==> o.targetPath != "" && o.targetPath[0] == '/' && (!o.inherits ==> HeadersAreGiven(o.policies))
  {
    ListParsesIff(o.policies);
    if o.targetPath != "" && o.targetPath[0] == '/' { TrimmedFromSlash(o.targetPath); }
  }

  /** And then everything of it is loaded. */
  lemma NonBlankDraftsLoad(d: Draft, upstream: Option<string>)
    requires DraftIsValid(d) && HasTrimmedIds(d.operations) && Truthy(upstream)
    requires CouldBeInspected(d.operations) && UsesNoBlankScope(d)
    ensures var compiled := Compile(ParsePolicyConfig, ApisOf(d.operations), GatewayDocument(d), false);
            && compiled.Ok?
            && forall op :: op in compiled.value.operations ==>
                 LoadOperation(ParsePolicyConfig, op, upstream) == Some(op) && ValidatorAccepts(op, upstream)
  {
    SchemasAreIdempotent();
    CompilesIffNoBlankScopes(d);
    ValidDraftsLoad(ParsePolicyConfig, d, upstream);
  }

  /** A draft with one operation, behind OAuth with these scopes. */
  function ScopedDraft(scopes: seq<string>): Draft {
    Draft(
      "/", [EditablePolicy(OAuthDraft, true, false, None, Some("api"), Some(scopes), None, None)],
      [OperationDraft("list", GET, "/items", "/items", true, [])])
  }

  lemma ScopedDraftIsValid(scopes: seq<string>)
    ensures DraftIsValid(ScopedDraft(scopes))
    ensures HasTrimmedIds(ScopedDraft(scopes).operations) && CouldBeInspected(ScopedDraft(scopes).operations)
  {
    var d := ScopedDraft(scopes);
    assert d.defaults[..0] == [] && Trim("/") == "/" && Trim("api") == "api" && Trim("list") == "list";
    assert EnabledAuthentications([]) == 0 && EnabledAuthentications(d.defaults) == 1;
  }

  /** The panel accepts a blank scope and the compiler does not; with any other scope the
      same draft compiles. */
  lemma BlankScopeIsAcceptedThenRefused(scope: string)
    ensures var d := ScopedDraft([scope]);
            && DraftIsValid(d)
            && (Compile(ParsePolicyConfig, ApisOf(d.operations), GatewayDocument(d), false).Ok? <==> Trim(scope) != "")
  {
    ScopedDraftIsValid([scope]);
    CompilesIffNoBlankScopes(ScopedDraft([scope]));
    ScopesOfDraft(scope);
  }

  lemma ScopesOfDraft(scope: string)
    ensures UsesNoBlankScope(ScopedDraft([scope])) <==> Trim(scope) != ""
  {
    var oauth := ScopedDraft([scope]).defaults[0];
    assert OrElse(oauth.scopes, []) == [scope] && [scope][0] == scope;
    assert HasBlankScope(oauth) <==> Trim(scope) == "";
  }
}
