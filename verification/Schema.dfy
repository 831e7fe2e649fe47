/** Values shared by every part of the model: option and result types, JSON
    documents, and the closed catalogues of the platform. */
module Schema {

  datatype Option<+T> = None | Some(value: T)

  datatype Result<+T, +E> = Ok(value: T) | Err(error: E)

  /** A parsed JSON or YAML document; `fields` lists an object's members in
      enumeration order. */
  datatype Json =
    | Null
    | Bool(b: bool)
    | Num(n: int)
    | Str(s: string)
    | Arr(items: seq<Json>)
    | Obj(fields: seq<(string, Json)>)

  /** `document[key]`, with None for JavaScript's undefined. */
  function Get(fields: seq<(string, Json)>, key: string): (r: Option<Json>)
    ensures r.Some? <==> exists i :: 0 <= i < |fields| && fields[i].0 == key
    ensures r.Some? ==> (key, r.value) in fields
  {
    if fields == [] then None
    else if fields[0].0 == key then Some(fields[0].1)
    else Get(fields[1..], key)
  }

  datatype Stage = Qual | Pprod | Prod

  datatype Mode = Forward | Local

  /** The HTTP methods, listed in the order Array.sort gives their names. */
  datatype Verb = DELETE | GET | HEAD | OPTIONS | PATCH | POST | PUT | TRACE

  const VERBS: seq<Verb> := [DELETE, GET, HEAD, OPTIONS, PATCH, POST, PUT, TRACE]

  /** The policy types the compiler and the loader distinguish; `Other` stands
      for the catalogue's remaining types. */
  datatype PolicyType =
    | ApiKeyAuth
    | OAuthAccessToken
    | MtlsAuth
    | RateLimit
    | OAuthToken
    | JwksEndpoint
    | Other(name: string)

  predicate IsAuthentication(t: PolicyType) {
    t.ApiKeyAuth? || t.OAuthAccessToken? || t.MtlsAuth?
  }

  predicate IsTerminal(t: PolicyType) {
    t.OAuthToken? || t.JwksEndpoint?
  }

  predicate IsBusiness(t: PolicyType) {
    IsAuthentication(t) || t.RateLimit?
  }

  datatype Policy = Policy(kind: PolicyType, order: nat, enabled: bool, config: Json)

  datatype Operation = Operation(
    operationId: string,
    verb: Verb,
    mode: Mode,
    path: string,
    targetPath: Option<string>,
    policies: seq<Policy>)

  function Enabled(policies: seq<Policy>): seq<PolicyType> {
    if policies == [] then []
    else (if policies[0].enabled then [policies[0].kind] else []) + Enabled(policies[1..])
  }

  function Authentications(types: seq<PolicyType>): nat {
    if types == [] then 0
    else (if IsAuthentication(types[0]) then 1 else 0) + Authentications(types[1..])
  }

  predicate HasTerminal(types: seq<PolicyType>) {
    exists t :: t in types && IsTerminal(t)
  }
}
