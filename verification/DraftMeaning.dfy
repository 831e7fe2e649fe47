/** A draft the panel accepts is one the compiler accepts, and means the same there. */
module DraftMeaning {
  import opened Schema
  import opened Seqs
  import opened Templates
  import opened Bundle
  import opened BundleMeaning
  import opened Whitespace
  import opened Drafts

  // ------------------------------------------------------------- what the panel accepts

  predicate IsValidPolicy(p: EditablePolicy) {
    match p.kind
    case ApiKeyDraft => Trim(OrElse(p.header, "")) != ""
    case OAuthDraft => Trim(OrElse(p.audience, "")) != ""
    case MtlsDraft => true
    case RateLimitDraft => OrElse(p.limit, 0) > 0 && OrElse(p.window, 0) > 0
  }

  function EnabledAuthentications(ps: seq<EditablePolicy>): nat {
    if ps == [] then 0
    else
      EnabledAuthentications(ps[..|ps| - 1])
      + if ps[|ps| - 1].enabled && IsAuthentication(TypeOf(ps[|ps| - 1].kind)) then 1 else 0
  }

  /** `validatePolicies`. */
  predicate PoliciesAreValid(ps: seq<EditablePolicy>) {
    EnabledAuthentications(ps) == 1 && forall i :: 0 <= i < |ps| ==> IsValidPolicy(ps[i])
  }

  /** `validateTargetPath` is asked of the target as typed, before it is trimmed. */
  predicate OperationIsValid(o: OperationDraft) {
    TargetPathIsValid(o.path, o.targetPath) && (!o.inherits ==> PoliciesAreValid(o.policies))
  }

  /** `validateRoutingDraft`. */
  predicate DraftIsValid(d: Draft) {
    var base := Trim(d.basePath);
    && base != "" && base[0] == '/'
    && '?' !in base && '#' !in base && '{' !in base && '}' !in base
    && PoliciesAreValid(d.defaults)
    && forall i :: 0 <= i < |d.operations| ==> OperationIsValid(d.operations[i])
  }

  // ------------------------------------------------------------------ what is compiled

  predicate AreAdmitted(parse: Parser, ps: seq<EditablePolicy>) {
    forall i :: 0 <= i < |ps| ==> parse(TypeOf(ps[i].kind), Some(Obj(ConfigOf(ps[i])))).Some?
  }

  /** The schemas admit every policy list of the draft that is used. */
  predicate DraftIsAdmitted(parse: Parser, d: Draft) {
    && AreAdmitted(parse, d.defaults)
    && forall i :: 0 <= i < |d.operations| ==> !d.operations[i].inherits ==> AreAdmitted(parse, d.operations[i].policies)
  }

  /** A policy of the draft as the gateway runs it. */
  function MeantPolicy(parse: Parser, p: EditablePolicy, order: nat): Policy
    requires parse(TypeOf(p.kind), Some(Obj(ConfigOf(p)))).Some?
  {
    Policy(TypeOf(p.kind), order, p.enabled, parse(TypeOf(p.kind), Some(Obj(ConfigOf(p)))).value)
  }

  /** A draft's policies as the gateway runs them: same types and enablement, in order. */
  function Meant(parse: Parser, ps: seq<EditablePolicy>): seq<Policy>
    requires AreAdmitted(parse, ps)
  {
    seq(|ps|, i requires 0 <= i < |ps| => MeantPolicy(parse, ps[i], i + 1))
  }

  // ----------------------------------------------------------- lists as they are written

  lemma NamedTypes(t: DraftType)
    ensures TypeNamed(NameOf(t)) == Some(TypeOf(t)) && NameOf(t) in BUSINESS_NAMES
    ensures NameOf(t) in AUTHENTICATION_NAMES <==> IsAuthentication(TypeOf(t))
  {}

  lemma WrittenEntry(parse: Parser, p: EditablePolicy)
    ensures NameOfEntry(SerializePolicy(p)) == Some(NameOf(p.kind)) && IsOn(SerializePolicy(p)) == p.enabled
    ensures EntryIsValid(parse, SerializePolicy(p), false) <==> parse(TypeOf(p.kind), Some(Obj(ConfigOf(p)))).Some?
    ensures forall policy, place :: IsPolicyOf(parse, policy, SerializePolicy(p), place) ==>
              parse(TypeOf(p.kind), Some(Obj(ConfigOf(p)))).Some? && policy == MeantPolicy(parse, p, place)
  {
    PolicyFields(p);
    NamedTypes(p.kind);
  }

  lemma {:induction false} WrittenAuthentications(ps: seq<EditablePolicy>)
    ensures |AuthenticatingAt(SerializeAll(ps))| == EnabledAuthentications(ps)
    decreases |ps|
  {
    if ps == [] {
      assert AuthenticatingAt(SerializeAll(ps)) == {};
    } else {
      var n := |ps| - 1;
      WrittenAuthentications(ps[..n]);
      assert SerializeAll(ps)[..n] == SerializeAll(ps[..n]);
      AuthenticatingLast(SerializeAll(ps));
      WrittenEntry((t, c) => None, ps[n]);
      NamedTypes(ps[n].kind);
    }
  }

  /** A list of the form, written down, is a valid one of the document exactly when the schemas
      admit it and one authentication is enabled. */
  lemma WrittenListIsValidIff(parse: Parser, ps: seq<EditablePolicy>)
    ensures ListIsValid(parse, Some(Arr(SerializeAll(ps))), false) <==> AreAdmitted(parse, ps) && EnabledAuthentications(ps) == 1
  {
    WrittenAuthentications(ps);
    forall i | 0 <= i < |ps|
      ensures EntryIsValid(parse, SerializeAll(ps)[i], false) <==> parse(TypeOf(ps[i].kind), Some(Obj(ConfigOf(ps[i])))).Some?
    {
      WrittenEntry(parse, ps[i]);
    }
  }

  lemma WrittenListMeans(parse: Parser, ps: seq<EditablePolicy>, policies: seq<Policy>)
    requires AreAdmitted(parse, ps) && ArePoliciesOf(parse, policies, SerializeAll(ps))
    ensures policies == Meant(parse, ps)
  {
    forall i | 0 <= i < |ps| ensures policies[i] == Meant(parse, ps)[i] {
      assert IsPolicyOf(parse, policies[i], SerializeAll(ps)[i], i + 1);
      WrittenEntry(parse, ps[i]);
    }
  }

  // ------------------------------------------------------------------- target paths

  predicate AllSpaces(s: string) {
    forall i :: 0 <= i < |s| ==> IsSpace(s[i])
  }

  lemma {:induction false} TrimEndSplits(s: string) returns (tail: string)
    ensures s == TrimEnd(s) + tail && AllSpaces(tail)
    decreases |s|
  {
    tail := "";
    if s != "" && IsSpace(s[|s| - 1]) {
      var rest := TrimEndSplits(s[..|s| - 1]);
      tail := rest + [s[|s| - 1]];
    }
  }

  lemma {:induction false} WordLengthBeforeSpaces(s: string, tail: string)
    requires AllSpaces(tail)
    ensures WordLength(s + tail) == WordLength(s)
    decreases |s|
  {
    if s == "" {
      assert s + tail == tail;
    } else {
      assert (s + tail)[1..] == s[1..] + tail;
      WordLengthBeforeSpaces(s[1..], tail);
    }
  }

  lemma ParameterBeforeSpaces(s: string, tail: string)
    requires AllSpaces(tail) && s != ""
    ensures ParameterAt(s + tail, false) == ParameterAt(s, false)
  {
    assert (s + tail)[1..] == s[1..] + tail;
    WordLengthBeforeSpaces(s[1..], tail);
    var n := WordLength(s[1..]);
    assert (s + tail)[1..n + 1] == s[1..n + 1];
  }

  lemma {:induction false} SpacesScanAsLiterals(tail: string)
    requires AllSpaces(tail)
    ensures Scan(tail, false) == Literals(tail)
    decreases |tail|
  {
    if tail != "" {
      SpacesScanAsLiterals(tail[1..]);
    }
  }

  lemma {:induction false} ScanBeforeSpaces(s: string, tail: string)
    requires AllSpaces(tail)
    ensures Scan(s + tail, false) == Scan(s, false) + Literals(tail)
    decreases |s|
  {
    if s == "" {
      assert s + tail == tail;
      SpacesScanAsLiterals(tail);
    } else {
      ParameterBeforeSpaces(s, tail);
      var width := if ParameterAt(s, false).Some? then Width(ParameterAt(s, false).value) else 1;
      assert (s + tail)[width..] == s[width..] + tail;
      ScanBeforeSpaces(s[width..], tail);
    }
  }

  lemma {:induction false} LiteralsAreChars(s: string)
    ensures forall t :: t in Literals(s) ==> t.Chr?
    decreases |s|
  {
    if s != "" {
      LiteralsAreChars(s[1..]);
    }
  }

  lemma TrimmedFromSlash(target: string)
    requires target != "" && target[0] == '/'
    ensures Trim(target) != "" && Trim(target)[0] == '/' && BraceNames(Trim(target)) == BraceNames(target)
  {
    assert TrimStart(target) == target;
    var tail := TrimEndSplits(target);
    var kept := TrimEnd(target);
    ScanBeforeSpaces(kept, tail);
    LiteralsAreChars(tail);
    assert kept == "" ==> target == tail;
    assert target[0] == kept[0];
  }

  /** Trimming a valid target keeps it valid, with the same parameters. */
  lemma TrimmedTargetIsValid(path: string, target: string)
    requires TargetPathIsValid(path, target)
    ensures TargetPathIsValid(path, Trim(target)) && BraceNames(Trim(target)) == BraceNames(target)
  {
    TrimmedFromSlash(target);
  }

  // ------------------------------------------------------------------- the whole draft

  function ApisOf(operations: seq<OperationDraft>): (r: seq<ApiOperation>)
    ensures |r| == |operations|
    ensures forall i :: 0 <= i < |operations| ==>
              r[i] == ApiOperation(operations[i].operationId, operations[i].verb, operations[i].path)
  {
    if operations == [] then []
    else
      var last := operations[|operations| - 1];
      ApisOf(operations[..|operations| - 1]) + [ApiOperation(last.operationId, last.verb, last.path)]
  }

  /** The operation the draft describes. */
  function Described(parse: Parser, d: Draft, i: nat): Operation
    requires i < |d.operations| && DraftIsAdmitted(parse, d)
  {
    var o := d.operations[i];
    Operation(
      o.operationId, o.verb, Forward, o.path, Some(Trim(o.targetPath)), Meant(parse, if o.inherits then d.defaults else o.policies))
  }

  function AllDescribed(parse: Parser, d: Draft): (ops: seq<Operation>)
    requires DraftIsAdmitted(parse, d)
    ensures |ops| == |d.operations| && forall i :: 0 <= i < |ops| ==> ops[i] == Described(parse, d, i)
  {
    seq(|d.operations|, i requires 0 <= i < |d.operations| => Described(parse, d, i))
  }

  lemma BasePathCompiles(base: string)
    requires IsBasePath(Some(Str(base)))
    ensures NormalizeBasePath(Some(Str(base))) == Ok(if base == "/" then base else WithoutTrailingSlashes(base))
  {
    BasePathIsAcceptedIff(Some(Str(base)));
    forall c | c in "?#{}" ensures c !in base {}
  }

  function NormalBasePath(d: Draft): string {
    if Trim(d.basePath) == "/" then "/" else WithoutTrailingSlashes(Trim(d.basePath))
  }

  /** What the draft means: each operation with its target, its own policies or the
      defaults, in order, enabled as ticked. */
  function DescribedBundle(parse: Parser, d: Draft): CompiledBundle
    requires DraftIsAdmitted(parse, d)
  {
    CompiledBundle(NormalBasePath(d), AllDescribed(parse, d))
  }

  // --------------------------------------------------------------- the written document

  lemma WrittenOperation(d: Draft, i: nat)
    requires i < |d.operations| && HasDistinctIds(d.operations)
    ensures var o, members := d.operations[i], Members(Get(Overrides(d.operations), d.operations[i].operationId));
            && EntryIsObject(Overrides(d.operations), o.operationId) && ModeIsAccepted(members, false)
            && TargetOf(members, o.path) == Trim(o.targetPath)
            && Get(members, "policies") == (if o.inherits then None else Some(Arr(SerializeAll(o.policies))))
  {
    OverrideIsFound(d.operations, i);
    OperationFields(d.operations[i]);
  }

  /** A policy list in use: the schemas admit it, and one authentication is enabled. */
  predicate IsInForce(parse: Parser, ps: seq<EditablePolicy>) {
    AreAdmitted(parse, ps) && EnabledAuthentications(ps) == 1
  }

  predicate IsCompilable(parse: Parser, o: OperationDraft) {
    IsTarget(o.path, Trim(o.targetPath)) && (!o.inherits ==> IsInForce(parse, o.policies))
  }

  predicate AreCompilable(parse: Parser, operations: seq<OperationDraft>) {
    forall i :: 0 <= i < |operations| ==> IsCompilable(parse, operations[i])
  }

  lemma WrittenOperationIsAcceptedIff(parse: Parser, d: Draft, i: nat)
    requires i < |d.operations| && HasDistinctIds(d.operations)
    ensures var defaults := Some(Arr(SerializeAll(d.defaults)));
            OperationIsAccepted(parse, ApisOf(d.operations)[i], Overrides(d.operations), defaults, false)
            <==> IsCompilable(parse, d.operations[i])
  {
    WrittenOperation(d, i);
    WrittenListIsValidIff(parse, d.operations[i].policies);
  }

  lemma WrittenOperationMeans(parse: Parser, d: Draft, i: nat, op: Operation)
    requires i < |d.operations| && HasDistinctIds(d.operations) && DraftIsAdmitted(parse, d)
    requires IsOperationOf(
               parse, op, ApisOf(d.operations)[i], Overrides(d.operations), Some(Arr(SerializeAll(d.defaults))), false)
    ensures op == Described(parse, d, i)
  {
    var o := d.operations[i];
    WrittenOperation(d, i);
    WrittenListMeans(parse, if o.inherits then d.defaults else o.policies, op.policies);
  }

  lemma WrittenDocument(d: Draft)
    ensures var document := GatewayDocument(d);
            && Get(document, "apiVersion") == Some(Str("gateway.platform/v1")) && HasObjects(document)
            && Get(document, "basePath") == Some(Str(Trim(d.basePath)))
            && DefaultList(document) == Some(Arr(SerializeAll(d.defaults)))
            && EntriesFor(document) == Overrides(d.operations)
    ensures EntriesAreKnown(ApisOf(d.operations), Overrides(d.operations))
  {
    DocumentFields(d);
    forall i | 0 <= i < |d.operations| ensures IsFor(ApisOf(d.operations), Overrides(d.operations)[i]) {
      assert ApisOf(d.operations)[i].operationId == Overrides(d.operations)[i].0;
    }
  }

  /** The operations as an inspection of their document would give them: some, with
      different ids that are not blank. */
  ghost predicate CouldBeInspected(operations: seq<OperationDraft>) {
    operations != [] && HasDistinctIds(operations) && forall i :: 0 <= i < |operations| ==> operations[i].operationId != ""
  }

  /** The panel takes over ids trimmed by the inspection. */
  predicate HasTrimmedIds(operations: seq<OperationDraft>) {
    forall i :: 0 <= i < |operations| ==> Trim(operations[i].operationId) == operations[i].operationId
  }

  /** Everything the compiler asks of a draft, in the draft's own terms. */
  ghost predicate DraftIsCompilable(parse: Parser, d: Draft) {
    && CouldBeInspected(d.operations) && IsBasePath(Some(Str(Trim(d.basePath)))) && IsInForce(parse, d.defaults)
    && AreCompilable(parse, d.operations)
  }

  lemma WrittenIdsDiffer(operations: seq<OperationDraft>)
    requires HasTrimmedIds(operations)
    ensures var apis := ApisOf(operations);
            IdsAreTrimmed(apis) && (CouldBeInspected(operations) <==> apis != [] && IdsDiffer(apis) && NoIdIsBlank(apis))
  {}

  lemma WrittenOperationsAreAcceptedIff(parse: Parser, d: Draft, defaults: Option<Json>)
    requires HasDistinctIds(d.operations) && defaults == Some(Arr(SerializeAll(d.defaults)))
    ensures AllAreAccepted(parse, ApisOf(d.operations), Overrides(d.operations), defaults, false)
       <==> AreCompilable(parse, d.operations)
  {
    forall i | 0 <= i < |d.operations|
      ensures OperationIsAccepted(parse, ApisOf(d.operations)[i], Overrides(d.operations), defaults, false)
         <==> IsCompilable(parse, d.operations[i])
    {
      WrittenOperationIsAcceptedIff(parse, d, i);
    }
  }

  lemma WrittenBundleIsAcceptedIff(parse: Parser, d: Draft)
    requires HasTrimmedIds(d.operations)
    ensures BundleIsAccepted(parse, ApisOf(d.operations), GatewayDocument(d), false) <==> DraftIsCompilable(parse, d)
  {
    WrittenIdsDiffer(d.operations);
    WrittenDocument(d);
    WrittenListIsValidIff(parse, d.defaults);
    if HasDistinctIds(d.operations) {
      WrittenOperationsAreAcceptedIff(parse, d, Some(Arr(SerializeAll(d.defaults))));
    }
  }

  lemma CompilableIsAdmitted(parse: Parser, d: Draft)
    requires DraftIsCompilable(parse, d)
    ensures DraftIsAdmitted(parse, d)
  {
    forall i | 0 <= i < |d.operations| && !d.operations[i].inherits ensures AreAdmitted(parse, d.operations[i].policies) {
      assert IsCompilable(parse, d.operations[i]);
    }
  }

  lemma WrittenOperationsMean(parse: Parser, d: Draft, ops: seq<Operation>)
    requires HasDistinctIds(d.operations) && DraftIsAdmitted(parse, d)
    requires AreOperationsOf(
               parse, ops, ApisOf(d.operations), Overrides(d.operations), Some(Arr(SerializeAll(d.defaults))), false)
    ensures ops == AllDescribed(parse, d)
  {
    forall i | 0 <= i < |d.operations| ensures ops[i] == Described(parse, d, i) {
      WrittenOperationMeans(parse, d, i, ops[i]);
    }
  }

  lemma WrittenBundleMeans(parse: Parser, d: Draft, bundle: CompiledBundle)
    requires DraftIsCompilable(parse, d) && IsBundleOf(parse, bundle, ApisOf(d.operations), GatewayDocument(d), false)
    ensures DraftIsAdmitted(parse, d) && bundle == DescribedBundle(parse, d)
  {
    WrittenDocument(d);
    BasePathCompiles(Trim(d.basePath));
    CompilableIsAdmitted(parse, d);
    WrittenOperationsMean(parse, d, bundle.operations);
  }

  /** Any draft, accepted by the panel or not, compiles exactly when it is compilable, and to
      what it describes. */
  lemma DraftCompilesIff(parse: Parser, d: Draft)
    requires HasTrimmedIds(d.operations)
    ensures var compiled := Compile(parse, ApisOf(d.operations), GatewayDocument(d), false);
            && (compiled.Ok? <==> DraftIsCompilable(parse, d))
            && (compiled.Ok? ==> DraftIsAdmitted(parse, d) && compiled.value == DescribedBundle(parse, d))
  {
    WrittenIdsDiffer(d.operations);
    WrittenBundleIsAcceptedIff(parse, d);
    CompileSucceedsIff(parse, ApisOf(d.operations), GatewayDocument(d), false);
    var compiled := Compile(parse, ApisOf(d.operations), GatewayDocument(d), false);
    if compiled.Ok? { WrittenBundleMeans(parse, d, compiled.value); }
  }

  lemma ValidBasePath(base: string)
    ensures IsBasePath(Some(Str(base)))
       <==> base != "" && base[0] == '/' && '?' !in base && '#' !in base && '{' !in base && '}' !in base
  {
    if IsBasePath(Some(Str(base))) { forall c | c in "?#{}" ensures c !in base {} }
  }

  /** Of the drafts the panel's routing step accepts the compiler accepts exactly those that
      have operations, with different ids, and whose used policies the schemas admit; and it
      compiles them to what they describe. */
  lemma ValidDraftsCompileIff(parse: Parser, d: Draft)
    requires DraftIsValid(d) && HasTrimmedIds(d.operations)
    ensures var compiled := Compile(parse, ApisOf(d.operations), GatewayDocument(d), false);
            && (compiled.Ok? <==> CouldBeInspected(d.operations) && DraftIsAdmitted(parse, d))
            && (compiled.Ok? ==> compiled.value == DescribedBundle(parse, d))
  {
    DraftCompilesIff(parse, d);
    ValidBasePath(Trim(d.basePath));
    forall i | 0 <= i < |d.operations| ensures IsTarget(d.operations[i].path, Trim(d.operations[i].targetPath)) {
      assert OperationIsValid(d.operations[i]);
      TrimmedTargetIsValid(d.operations[i].path, d.operations[i].targetPath);
    }
  }

  /** Whatever compiles is loaded: a valid draft's operations, deployed with an upstream,
      reach the gateway exactly as compiled. */
  lemma ValidDraftsLoad(parse: Parser, d: Draft, upstream: Option<string>)
    requires ParserIsIdempotent(parse) && DraftIsValid(d) && HasTrimmedIds(d.operations) && Truthy(upstream)
    ensures var compiled := Compile(parse, ApisOf(d.operations), GatewayDocument(d), false);
            compiled.Ok? ==> forall op :: op in compiled.value.operations ==>
              LoadOperation(parse, op, upstream) == Some(op) && ValidatorAccepts(op, upstream)
  {
    var compiled := Compile(parse, ApisOf(d.operations), GatewayDocument(d), false);
    ValidDraftsCompileIff(parse, d);
    if compiled.Ok? {
      var ops := compiled.value.operations;
      CompiledBundleIsWellFormed(parse, ApisOf(d.operations), GatewayDocument(d), false);
      forall i | 0 <= i < |ops| ensures LoadOperation(parse, ops[i], upstream) == Some(ops[i]) && ValidatorAccepts(ops[i], upstream) {
        var o := d.operations[i];
        assert ops[i] == Described(parse, d, i) && OperationIsValid(o);
        TrimmedTargetIsValid(o.path, o.targetPath);
        CompiledOperationLoadsIff(parse, ops[i], false, upstream);
      }
    }
  }
}
