/** `parsePolicyConfig`: the configuration schemas of the policy types. */
module PolicySchemas {
  import opened Schema
  import opened Seqs
  import opened Bundle
  import opened Whitespace
  import opened Drafts

  /** A member of an object schema: what it parses to, and what stands for an absent one. */
  datatype Field = Field(name: string, parse: Json -> Option<Json>, otherwise: Option<Json>)

  // ------------------------------------------------------------------ members

  function FailureMode(v: Json): Option<Json> {
    if v == Str("open") || v == Str("closed") then Some(v) else None
  }

  /** `z.string().trim().min(1)`. */
  function TrimmedText(v: Json): Option<Json> {
    if v.Str? && Trim(v.s) != "" then Some(Str(Trim(v.s))) else None
  }

  /** `z.number().int().positive()`, with a bound if there is one. */
  function Positive(v: Json, bound: Option<int>): Option<Json> {
    if v.Num? && v.n > 0 && (bound.Some? ==> v.n <= bound.value) then Some(v) else None
  }

  function TrimmedTexts(items: seq<Json>): Option<seq<Json>> {
    if items == [] then Some([])
    else match (TrimmedText(items[0]), TrimmedTexts(items[1..]))
      case (Some(first), Some(rest)) => Some([first] + rest)
      case _ => None
  }

  function Scopes(v: Json): Option<Json> {
    if v.Arr? && TrimmedTexts(v.items).Some? then Some(Arr(TrimmedTexts(v.items).value)) else None
  }

  const GRANT_TYPES: seq<string> := [
    "client_credentials",
    "urn:ietf:params:oauth:grant-type:jwt-bearer",
    "urn:api-gateway:params:oauth:grant-type:developer-token"]

  function GrantTypes(v: Json): Option<Json> {
    if v.Arr? && v.items != [] && forall i :: 0 <= i < |v.items| ==> v.items[i].Str? && v.items[i].s in GRANT_TYPES
    then Some(v) else None
  }

  // ------------------------------------------------------------------ objects

  function BaseShape(): seq<Field> {
    [Field("failureMode", FailureMode, Some(Str("closed")))]
  }

  function ShapeOf(kind: PolicyType): seq<Field> {
    BaseShape()
    + match kind
      case ApiKeyAuth => [Field("header", TrimmedText, Some(Str("x-api-key")))]
      case OAuthAccessToken => [Field("audience", TrimmedText, None), Field("requiredScopes", Scopes, Some(Arr([])))]
      case RateLimit => [Field("limit", v => Positive(v, None), None), Field("windowSeconds", v => Positive(v, None), None)]
      case OAuthToken =>
        [Field("grantTypes", GrantTypes, None), Field("accessTokenTtlSeconds", v => Positive(v, Some(3600)), Some(Num(900))),
         Field("audience", TrimmedText, None), Field("allowedScopes", Scopes, Some(Arr([])))]
      case _ => []
  }

  function ParseMember(f: Field, fields: seq<(string, Json)>): Option<Json> {
    match Get(fields, f.name)
    case None => f.otherwise
    case Some(v) => f.parse(v)
  }

  function ParseMembers(shape: seq<Field>, fields: seq<(string, Json)>): Option<seq<(string, Json)>> {
    if shape == [] then Some([])
    else match (ParseMember(shape[0], fields), ParseMembers(shape[1..], fields))
      case (Some(v), Some(rest)) => Some([(shape[0].name, v)] + rest)
      case _ => None
  }

  predicate IsNamed(shape: seq<Field>, key: string) {
    exists i :: 0 <= i < |shape| && shape[i].name == key
  }

  /** `passthrough`: the members the schema does not name. */
  function Unnamed(shape: seq<Field>, fields: seq<(string, Json)>): seq<(string, Json)> {
    if fields == [] then []
    else (if IsNamed(shape, fields[0].0) then [] else [fields[0]]) + Unnamed(shape, fields[1..])
  }

  function ParseObject(shape: seq<Field>, fields: seq<(string, Json)>): Option<seq<(string, Json)>> {
    match ParseMembers(shape, fields)
    case None => None
    case Some(named) => Some(named + Unnamed(shape, fields))
  }

  function ParsePolicyConfig(kind: PolicyType, config: Option<Json>): Option<Json> {
    if config.None? || config.value.Null? then ParsedObject(kind, [])
    else if config.value.Obj? then ParsedObject(kind, config.value.fields)
    else None
  }

  function ParsedObject(kind: PolicyType, fields: seq<(string, Json)>): Option<Json> {
    match ParseObject(ShapeOf(kind), fields)
    case None => None
    case Some(parsed) => Some(Obj(parsed))
  }

  // ------------------------------------------------------------------ parsing twice

  lemma {:induction false} TextsTwice(items: seq<Json>)
    requires TrimmedTexts(items).Some?
    ensures TrimmedTexts(TrimmedTexts(items).value) == TrimmedTexts(items)
  {
    if items != [] {
      TextsTwice(items[1..]);
      TrimTwice(items[0].s);
    }
  }

  ghost predicate IsStable(f: Field) {
    && (forall v :: f.parse(v).Some? ==> f.parse(f.parse(v).value) == f.parse(v))
    && (f.otherwise.Some? ==> f.parse(f.otherwise.value) == f.otherwise)
  }

  predicate NamesDiffer(shape: seq<Field>) {
    forall i, j :: 0 <= i < j < |shape| ==> shape[i].name != shape[j].name
  }

  lemma TextIsStable()
    ensures forall v :: TrimmedText(v).Some? ==> TrimmedText(TrimmedText(v).value) == TrimmedText(v)
  {
    forall v | TrimmedText(v).Some? ensures TrimmedText(TrimmedText(v).value) == TrimmedText(v) {
      TrimTwice(v.s);
    }
  }

  lemma ScopesAreStable()
    ensures forall v :: Scopes(v).Some? ==> Scopes(Scopes(v).value) == Scopes(v)
  {
    forall v | Scopes(v).Some? ensures Scopes(Scopes(v).value) == Scopes(v) {
      TextsTwice(v.items);
    }
  }

  lemma ShapesAreStable(kind: PolicyType)
    ensures NamesDiffer(ShapeOf(kind)) && forall f :: f in ShapeOf(kind) ==> IsStable(f)
  {
    TextIsStable();
    ScopesAreStable();
  }

  lemma {:induction false} MembersAreNamed(shape: seq<Field>, fields: seq<(string, Json)>)
    requires ParseMembers(shape, fields).Some?
    ensures var named := ParseMembers(shape, fields).value;
            |named| == |shape| && forall i :: 0 <= i < |shape| ==>
              named[i].0 == shape[i].name && ParseMember(shape[i], fields) == Some(named[i].1)
  {
    if shape != [] { MembersAreNamed(shape[1..], fields); }
  }

  /** An object parses exactly when all of its members do. */
  lemma {:induction false} ObjectParsesIff(shape: seq<Field>, fields: seq<(string, Json)>)
    ensures ParseObject(shape, fields).Some? <==> forall i :: 0 <= i < |shape| ==> ParseMember(shape[i], fields).Some?
  {
    if shape != [] { ObjectParsesIff(shape[1..], fields); }
  }

  lemma ConfigParsesIff(kind: PolicyType, fields: seq<(string, Json)>)
    ensures ParsePolicyConfig(kind, Some(Obj(fields))).Some?
       <==> forall i :: 0 <= i < |ShapeOf(kind)| ==> ParseMember(ShapeOf(kind)[i], fields).Some?
  {
    ObjectParsesIff(ShapeOf(kind), fields);
  }

  lemma ThreeMembersParseIff(shape: seq<Field>, fields: seq<(string, Json)>)
    requires |shape| == 3
    ensures ParseObject(shape, fields).Some?
       <==> ParseMember(shape[0], fields).Some? && ParseMember(shape[1], fields).Some? && ParseMember(shape[2], fields).Some?
  {
    ObjectParsesIff(shape, fields);
  }

  lemma {:induction false} MembersFrom(shape: seq<Field>, fields: seq<(string, Json)>, named: seq<(string, Json)>)
    requires |named| == |shape| && forall i :: 0 <= i < |shape| ==>
               named[i].0 == shape[i].name && ParseMember(shape[i], fields) == Some(named[i].1)
    ensures ParseMembers(shape, fields) == Some(named)
  {
    if shape != [] {
      MembersFrom(shape[1..], fields, named[1..]);
      HeadFirst(named, []);
    }
  }

  lemma {:induction false} FoundAt(fields: seq<(string, Json)>, rest: seq<(string, Json)>, i: nat)
    requires i < |fields| && forall j :: 0 <= j < i ==> fields[j].0 != fields[i].0
    ensures Get(fields + rest, fields[i].0) == Some(fields[i].1)
    decreases i
  {
    if i > 0 {
      HeadFirst(fields, rest);
      FoundAt(fields[1..], rest, i - 1);
    }
  }

  lemma {:induction false} UnnamedBehind(shape: seq<Field>, named: seq<(string, Json)>, rest: seq<(string, Json)>)
    requires forall i :: 0 <= i < |named| ==> IsNamed(shape, named[i].0)
    ensures Unnamed(shape, named + rest) == Unnamed(shape, rest)
  {
    if named == [] {
      EmptyFront(rest);
    } else {
      HeadFirst(named, rest);
      assert IsNamed(shape, named[0].0);
      UnnamedBehind(shape, named[1..], rest);
      EmptyFront(Unnamed(shape, rest));
    }
  }

  lemma {:induction false} UnnamedTwice(shape: seq<Field>, fields: seq<(string, Json)>)
    ensures Unnamed(shape, Unnamed(shape, fields)) == Unnamed(shape, fields)
  {
    if fields != [] {
      var rest := Unnamed(shape, fields[1..]);
      UnnamedTwice(shape, fields[1..]);
      EmptyFront(rest);
      assert ([fields[0]] + rest)[1..] == rest;
    }
  }

  lemma ObjectTwice(shape: seq<Field>, fields: seq<(string, Json)>)
    requires NamesDiffer(shape) && forall f :: f in shape ==> IsStable(f)
    requires ParseObject(shape, fields).Some?
    ensures ParseObject(shape, ParseObject(shape, fields).value) == ParseObject(shape, fields)
  {
    var named, rest := ParseMembers(shape, fields).value, Unnamed(shape, fields);
    MembersAreNamed(shape, fields);
    forall i | 0 <= i < |shape| ensures ParseMember(shape[i], named + rest) == Some(named[i].1) {
      FoundAt(named, rest, i);
      assert shape[i] in shape;
    }
    MembersFrom(shape, named + rest, named);
    UnnamedBehind(shape, named, rest);
    UnnamedTwice(shape, fields);
  }

  /** A parsed configuration parses to itself, whatever its type: what the compiler stored
      the loader reads back unchanged. */
  lemma SchemasAreIdempotent()
    ensures ParserIsIdempotent(ParsePolicyConfig)
  {
    forall t, c | ParsePolicyConfig(t, c).Some?
      ensures ParsePolicyConfig(t, Some(ParsePolicyConfig(t, c).value)) == ParsePolicyConfig(t, c)
    {
      ShapesAreStable(t);
      ObjectTwice(ShapeOf(t), if c.Some? && c.value.Obj? then c.value.fields else []);
    }
  }

  // -------------------------------------------------------------- what the schemas admit

  predicate IsOneOf(v: Json, texts: seq<string>) {
    v.Str? && v.s in texts
  }

  predicate IsText(v: Json) {
    v.Str? && Trim(v.s) != ""
  }

  predicate IsBetween(v: Json, least: int, most: Option<int>) {
    v.Num? && least <= v.n && (most.Some? ==> v.n <= most.value)
  }

  predicate AreTexts(v: Json) {
    v.Arr? && forall i :: 0 <= i < |v.items| ==> IsText(v.items[i])
  }

  predicate AreGrantTypes(v: Json) {
    v.Arr? && v.items != [] && forall i :: 0 <= i < |v.items| ==>
      IsOneOf(v.items[i], [
        "client_credentials", "urn:ietf:params:oauth:grant-type:jwt-bearer",
        "urn:api-gateway:params:oauth:grant-type:developer-token"])
  }

  /** A member that has to be there, and one that has not. */
  predicate Has(fields: seq<(string, Json)>, key: string, admits: Json -> bool) {
    Get(fields, key).Some? && admits(Get(fields, key).value)
  }

  predicate MayHave(fields: seq<(string, Json)>, key: string, admits: Json -> bool) {
    Get(fields, key).Some? ==> admits(Get(fields, key).value)
  }

  /** The configurations of each type, by their members. */
  predicate IsAdmitted(kind: PolicyType, fields: seq<(string, Json)>) {
    && MayHave(fields, "failureMode", v => IsOneOf(v, ["open", "closed"]))
    && match kind
       case ApiKeyAuth => MayHave(fields, "header", IsText)
       case OAuthAccessToken => Has(fields, "audience", IsText) && MayHave(fields, "requiredScopes", AreTexts)
       case RateLimit =>
         Has(fields, "limit", v => IsBetween(v, 1, None)) && Has(fields, "windowSeconds", v => IsBetween(v, 1, None))
       case OAuthToken =>
         && Has(fields, "grantTypes", AreGrantTypes)
         && MayHave(fields, "accessTokenTtlSeconds", v => IsBetween(v, 1, Some(3600)))
         && Has(fields, "audience", IsText) && MayHave(fields, "allowedScopes", AreTexts)
       case _ => true
  }

  lemma {:induction false} TextsAreTexts(items: seq<Json>)
    ensures TrimmedTexts(items).Some? <==> forall i :: 0 <= i < |items| ==> IsText(items[i])
  {
    if items != [] { TextsAreTexts(items[1..]); }
  }

  lemma OAuthShape()
    ensures var shape := ShapeOf(OAuthAccessToken);
            && |shape| == 3 && shape[0] == BaseShape()[0] && shape[1].name == "audience" && shape[2].name == "requiredScopes"
            && shape[1].otherwise == None && shape[2].otherwise == Some(Arr([]))
            && forall v :: shape[1].parse(v) == TrimmedText(v) && shape[2].parse(v) == Scopes(v)
  {}

  lemma TokenShape()
    ensures var shape := ShapeOf(OAuthToken);
            && |shape| == 5 && shape[0] == BaseShape()[0] && shape[1].name == "grantTypes"
            && shape[2].name == "accessTokenTtlSeconds" && shape[3].name == "audience" && shape[4].name == "allowedScopes"
            && shape[1].otherwise == None && shape[2].otherwise == Some(Num(900)) && shape[3].otherwise == None
            && shape[4].otherwise == Some(Arr([]))
            && forall v :: shape[1].parse(v) == GrantTypes(v) && shape[2].parse(v) == Positive(v, Some(3600))
                 && shape[3].parse(v) == TrimmedText(v) && shape[4].parse(v) == Scopes(v)
  {}

  lemma RateShape()
    ensures var shape := ShapeOf(RateLimit);
            && |shape| == 3 && shape[0] == BaseShape()[0] && shape[1].name == "limit" && shape[2].name == "windowSeconds"
            && shape[1].otherwise == None && shape[2].otherwise == None
            && forall v :: shape[1].parse(v) == Positive(v, None) && shape[2].parse(v) == Positive(v, None)
  {}

  lemma KeyShape()
    ensures var shape := ShapeOf(ApiKeyAuth);
            && |shape| == 2 && shape[0] == BaseShape()[0] && shape[1].name == "header"
            && shape[1].otherwise == Some(Str("x-api-key")) && forall v :: shape[1].parse(v) == TrimmedText(v)
  {}

  lemma ModeAdmitsIff(fields: seq<(string, Json)>)
    ensures ParseMember(BaseShape()[0], fields).Some? <==> MayHave(fields, "failureMode", v => IsOneOf(v, ["open", "closed"]))
  {}

  lemma ScopesAdmitIff(v: Json)
    ensures Scopes(v).Some? <==> AreTexts(v)
  {
    if v.Arr? { TextsAreTexts(v.items); }
  }

  lemma TokenAdmitsIff(fields: seq<(string, Json)>)
    ensures ParsePolicyConfig(OAuthToken, Some(Obj(fields))).Some? <==> IsAdmitted(OAuthToken, fields)
  {
    var shape := ShapeOf(OAuthToken);
    FiveMembersParseIff(shape, fields);
    ModeAdmitsIff(fields);
    TokenMembersAdmit(fields);
  }

  lemma FiveMembersParseIff(shape: seq<Field>, fields: seq<(string, Json)>)
    requires |shape| == 5
    ensures ParseObject(shape, fields).Some?
       <==> ParseMember(shape[0], fields).Some? && ParseMember(shape[1], fields).Some? && ParseMember(shape[2], fields).Some?
            && ParseMember(shape[3], fields).Some? && ParseMember(shape[4], fields).Some?
  {
    ObjectParsesIff(shape, fields);
  }

  lemma TokenMembersAdmit(fields: seq<(string, Json)>)
    ensures var shape := ShapeOf(OAuthToken);
            && |shape| == 5 && shape[0] == BaseShape()[0]
            && (ParseMember(shape[1], fields).Some? <==> Has(fields, "grantTypes", AreGrantTypes))
            && (ParseMember(shape[2], fields).Some? <==> MayHave(fields, "accessTokenTtlSeconds", v => IsBetween(v, 1, Some(3600))))
            && (ParseMember(shape[3], fields).Some? <==> Has(fields, "audience", IsText))
            && (ParseMember(shape[4], fields).Some? <==> MayHave(fields, "allowedScopes", AreTexts))
  {
    TokenShape();
    if Get(fields, "allowedScopes").Some? { ScopesAdmitIff(Get(fields, "allowedScopes").value); }
  }

  lemma OAuthAdmitsIff(fields: seq<(string, Json)>)
    ensures ParsePolicyConfig(OAuthAccessToken, Some(Obj(fields))).Some? <==> IsAdmitted(OAuthAccessToken, fields)
  {
    ConfigParsesIff(OAuthAccessToken, fields);
    OAuthShape();
    ModeAdmitsIff(fields);
    if Get(fields, "requiredScopes").Some? { ScopesAdmitIff(Get(fields, "requiredScopes").value); }
    var shape := ShapeOf(OAuthAccessToken);
    assert ParseMember(shape[1], fields).Some? <==> Has(fields, "audience", IsText);
    assert ParseMember(shape[2], fields).Some? <==> MayHave(fields, "requiredScopes", AreTexts);
  }

  lemma RateAdmitsIff(fields: seq<(string, Json)>)
    ensures ParsePolicyConfig(RateLimit, Some(Obj(fields))).Some? <==> IsAdmitted(RateLimit, fields)
  {
    ConfigParsesIff(RateLimit, fields);
    RateShape();
    ModeAdmitsIff(fields);
    var shape := ShapeOf(RateLimit);
    assert ParseMember(shape[1], fields).Some? <==> Has(fields, "limit", v => IsBetween(v, 1, None));
    assert ParseMember(shape[2], fields).Some? <==> Has(fields, "windowSeconds", v => IsBetween(v, 1, None));
  }

  lemma KeyAdmitsIff(fields: seq<(string, Json)>)
    ensures ParsePolicyConfig(ApiKeyAuth, Some(Obj(fields))).Some? <==> IsAdmitted(ApiKeyAuth, fields)
  {
    ConfigParsesIff(ApiKeyAuth, fields);
    KeyShape();
    ModeAdmitsIff(fields);
    assert ParseMember(ShapeOf(ApiKeyAuth)[1], fields).Some? <==> MayHave(fields, "header", IsText);
  }

  /** An absent configuration is an empty one, and nothing but an object is any. */
  lemma OnlyObjectsParse(kind: PolicyType, config: Json)
    ensures ParsePolicyConfig(kind, None) == ParsePolicyConfig(kind, Some(Obj([]))) == ParsePolicyConfig(kind, Some(Null))
    ensures ParsePolicyConfig(kind, Some(config)).Some? ==> config.Obj? || config.Null?
  {}

  /** The schemas admit exactly these configurations. */
  lemma SchemaAdmitsIff(kind: PolicyType, fields: seq<(string, Json)>)
    ensures ParsePolicyConfig(kind, Some(Obj(fields))).Some? <==> IsAdmitted(kind, fields)
  {
    match kind
    case OAuthToken => TokenAdmitsIff(fields);
    case OAuthAccessToken => OAuthAdmitsIff(fields);
    case RateLimit => RateAdmitsIff(fields);
    case ApiKeyAuth => KeyAdmitsIff(fields);
    case _ =>
      ConfigParsesIff(kind, fields);
      ModeAdmitsIff(fields);
      assert ShapeOf(kind) == BaseShape();
  }

  // ----------------------------------------------------------- and what they make of it

  lemma {:induction false} NamedIsFound(named: seq<(string, Json)>, rest: seq<(string, Json)>, key: string)
    ensures Get(named + rest, key) == if Get(named, key).Some? then Get(named, key) else Get(rest, key)
    decreases |named|
  {
    if named == [] {
      EmptyFront(rest);
    } else {
      HeadFirst(named, rest);
      NamedIsFound(named[1..], rest, key);
    }
  }

  lemma {:induction false} UnnamedIsFound(shape: seq<Field>, fields: seq<(string, Json)>, key: string)
    ensures Get(Unnamed(shape, fields), key) == if IsNamed(shape, key) then None else Get(fields, key)
    decreases |fields|
  {
    if fields != [] {
      UnnamedIsFound(shape, fields[1..], key);
      EmptyFront(Unnamed(shape, fields[1..]));
      assert ([fields[0]] + Unnamed(shape, fields[1..]))[1..] == Unnamed(shape, fields[1..]);
    }
  }

  /** Parsing gives every member of the type what its schema makes of it, or its default, and
      passes every other member through. */
  lemma ParsedMembers(kind: PolicyType, fields: seq<(string, Json)>, key: string)
    requires ParsePolicyConfig(kind, Some(Obj(fields))).Some?
    ensures var parsed := ParsePolicyConfig(kind, Some(Obj(fields))).value.fields;
            && (!IsNamed(ShapeOf(kind), key) ==> Get(parsed, key) == Get(fields, key))
            && (forall i :: 0 <= i < |ShapeOf(kind)| && ShapeOf(kind)[i].name == key ==>
                  Get(parsed, key) == ParseMember(ShapeOf(kind)[i], fields))
  {
    var shape := ShapeOf(kind);
    var named := ParseMembers(shape, fields).value;
    ShapesAreStable(kind);
    MembersAreNamed(shape, fields);
    NamedIsFound(named, Unnamed(shape, fields), key);
    UnnamedIsFound(shape, fields, key);
    forall i | 0 <= i < |shape| && shape[i].name == key ensures Get(named, key) == Some(named[i].1) {
      FoundAt(named, [], i);
      EmptyFront(named);
    }
  }

  /** What stands for absent members. */
  lemma DefaultsAre(fields: seq<(string, Json)>)
    requires forall key :: Get(fields, key) == None
    ensures ParseMember(BaseShape()[0], fields) == Some(Str("closed"))
    ensures ParseMember(ShapeOf(ApiKeyAuth)[1], fields) == Some(Str("x-api-key"))
    ensures ParseMember(ShapeOf(OAuthAccessToken)[2], fields) == Some(Arr([]))
    ensures ParseMember(ShapeOf(OAuthToken)[2], fields) == Some(Num(900))
    ensures ParseMember(ShapeOf(OAuthToken)[4], fields) == Some(Arr([]))
  {
    KeyShape();
    OAuthShape();
    TokenShape();
  }

  // ------------------------------------------------------------- the panel's policies

  predicate HasBlankScope(p: EditablePolicy) {
    p.kind.OAuthDraft? && exists i :: 0 <= i < |OrElse(p.scopes, [])| && Trim(OrElse(p.scopes, [])[i]) == ""
  }

  lemma {:induction false} TextsParseIff(scopes: seq<string>)
    ensures TrimmedTexts(Strings(scopes)).Some? <==> forall i :: 0 <= i < |scopes| ==> Trim(scopes[i]) != ""
  {
    if scopes != [] {
      TextsParseIff(scopes[1..]);
      assert Strings(scopes)[1..] == Strings(scopes[1..]);
    }
  }
}
