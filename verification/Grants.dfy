/** Product grants of application credentials: replacing them, cloning a credential, and
    what the gateway lets a credential do with them. */
module Grants {
  import opened Schema
  import opened Seqs

  const PLAYGROUND_LIFETIME_MS: int := 60 * 60 * 1000

  datatype AuthStatus = Pending | Approved | Revoked

  datatype Product = Product(
    org: string, active: bool, scopes: set<string>, environments: set<string>, proxies: set<string>)

  datatype App = App(org: string, status: AuthStatus)

  datatype Credential = Credential(app: string, status: AuthStatus, issuedAt: int, expiresAt: Option<int>)

  datatype Grant = Grant(status: AuthStatus, scopes: set<string>)

  /** One requested product; no scopes asks for all the product declares. */
  datatype Request = Request(product: string, scopes: Option<set<string>>)

  datatype GrantError =
    | ProductNotFound | CredentialNotFound | InvalidTransition | ProductNotActive | OrganizationMismatch | InvalidScope
    | AppNotFound | CloneNotAllowed | InvalidExpiration

  /** Grants are keyed by credential and product. */
  type GrantTable = map<(string, string), Grant>

  datatype Store = Store(
    apps: map<string, App>, products: map<string, Product>, credentials: map<string, Credential>, grants: GrantTable)

  // ------------------------------------------------------------------ replacing grants

  predicate HasDuplicates(requests: seq<Request>) {
    exists i, j :: 0 <= i < j < |requests| && requests[i].product == requests[j].product
  }

  function WantedScopes(products: map<string, Product>, r: Request): set<string>
    requires r.product in products
  {
    if r.scopes.Some? then r.scopes.value else products[r.product].scopes
  }

  /** Why one request is refused, if it is. */
  function Refusal(products: map<string, Product>, org: string, r: Request): Option<GrantError>
    requires r.product in products
  {
    if !products[r.product].active then Some(ProductNotActive)
    else if products[r.product].org != org then Some(OrganizationMismatch)
    else if !(WantedScopes(products, r) <= products[r.product].scopes) then Some(InvalidScope)
    else None
  }

  function FirstRefusal(products: map<string, Product>, org: string, requests: seq<Request>): Option<GrantError>
    requires forall i :: 0 <= i < |requests| ==> requests[i].product in products
  {
    if requests == [] then None
    else
      var before := FirstRefusal(products, org, requests[..|requests| - 1]);
      if before.Some? then before else Refusal(products, org, requests[|requests| - 1])
  }

  /** Whether, and why not, a replacement is accepted. */
  function PlanReplace(s: Store, credential: string, requests: seq<Request>): Result<(), GrantError> {
    if HasDuplicates(requests) then Err(ProductNotFound)
    else if credential !in s.credentials || s.credentials[credential].app !in s.apps then Err(CredentialNotFound)
    else
      var app := s.apps[s.credentials[credential].app];
      if s.credentials[credential].status.Revoked? || app.status.Revoked? then Err(InvalidTransition)
      else if exists i :: 0 <= i < |requests| && requests[i].product !in s.products then Err(ProductNotFound)
      else
        match FirstRefusal(s.products, app.org, requests)
        case Some(e) => Err(e)
        case None => Ok(())
  }

  /** A replacement is accepted exactly for a credential that is not revoked, of an application
      that is not, and for different products, each active, of the application's organization
      and declaring the scopes asked for. */
  lemma ReplaceSucceedsIff(s: Store, credential: string, requests: seq<Request>)
    ensures PlanReplace(s, credential, requests).Ok?
       <==>
         && credential in s.credentials && s.credentials[credential].app in s.apps
         && var app := s.apps[s.credentials[credential].app];
         && !s.credentials[credential].status.Revoked? && !app.status.Revoked?
         && (forall i, j :: 0 <= i < j < |requests| ==> requests[i].product != requests[j].product)
         && forall i :: 0 <= i < |requests| ==>
              && requests[i].product in s.products
              && var product := s.products[requests[i].product];
              product.active && product.org == app.org && (requests[i].scopes.Some? ==> requests[i].scopes.value <= product.scopes)
  {
    if credential in s.credentials && s.credentials[credential].app in s.apps
       && forall i :: 0 <= i < |requests| ==> requests[i].product in s.products {
      NoneRefusedIff(s.products, s.apps[s.credentials[credential].app].org, requests);
    }
  }

  lemma {:induction false} NoneRefusedIff(products: map<string, Product>, org: string, requests: seq<Request>)
    requires forall i :: 0 <= i < |requests| ==> requests[i].product in products
    ensures FirstRefusal(products, org, requests).None?
       <==> forall i :: 0 <= i < |requests| ==> Refusal(products, org, requests[i]).None?
    decreases |requests|
  {
    if requests != [] {
      NoneRefusedIff(products, org, requests[..|requests| - 1]);
      SplitLast(requests);
    }
  }

  predicate IsRequested(requests: seq<Request>, product: string) {
    exists i :: 0 <= i < |requests| && requests[i].product == product
  }

  /** A credential's grants are exactly the requested ones, with the scopes asked for; its
      others are revoked, and other credentials keep theirs. */
  ghost predicate IsReplaced(
    before: GrantTable, after: GrantTable, credential: string, requests: seq<Request>, products: map<string, Product>)
    requires forall i :: 0 <= i < |requests| ==> requests[i].product in products
  {
    && (forall key :: key in after <==> key in before || (key.0 == credential && IsRequested(requests, key.1)))
    && (forall key :: key in before && key.0 != credential ==> after[key] == before[key])
    && (forall key :: key in before && key.0 == credential && !IsRequested(requests, key.1) ==>
          after[key] == before[key].(status := Revoked))
    && (forall i :: 0 <= i < |requests| ==>
          && (credential, requests[i].product) in after
          && after[(credential, requests[i].product)] == Grant(Approved, WantedScopes(products, requests[i])))
  }

  /** The table while the upserts run: requests up to n are in. */
  ghost predicate AreUpserted(
    before: GrantTable, now: GrantTable, credential: string, requests: seq<Request>, products: map<string, Product>, n: nat)
    requires n <= |requests| && forall i :: 0 <= i < |requests| ==> requests[i].product in products
  {
    && (forall key :: key in now <==> key in before || (key.0 == credential && IsRequested(requests[..n], key.1)))
    && (forall key :: key in before && !(key.0 == credential && IsRequested(requests[..n], key.1)) ==> now[key] == before[key])
    && (forall i :: 0 <= i < n ==>
          && (credential, requests[i].product) in now
          && now[(credential, requests[i].product)] == Grant(Approved, WantedScopes(products, requests[i])))
  }

  lemma RequestedGrows(requests: seq<Request>, n: nat, product: string)
    requires n < |requests|
    ensures IsRequested(requests[..n + 1], product) <==> IsRequested(requests[..n], product) || requests[n].product == product
  {}

  lemma NextUpsert(
    before: GrantTable, now: GrantTable, credential: string, requests: seq<Request>, products: map<string, Product>, n: nat)
    requires n < |requests| && !HasDuplicates(requests) && forall i :: 0 <= i < |requests| ==> requests[i].product in products
    requires AreUpserted(before, now, credential, requests, products, n)
    ensures AreUpserted(
              before, now[(credential, requests[n].product) := Grant(Approved, WantedScopes(products, requests[n]))],
              credential, requests, products, n + 1)
  {
    forall product ensures IsRequested(requests[..n + 1], product)
                      <==> IsRequested(requests[..n], product) || requests[n].product == product {
      RequestedGrows(requests, n, product);
    }
  }

  lemma {:induction false} RefusalStays(products: map<string, Product>, org: string, requests: seq<Request>, n: nat)
    requires n <= |requests| && forall i :: 0 <= i < |requests| ==> requests[i].product in products
    requires FirstRefusal(products, org, requests[..n]).Some?
    ensures FirstRefusal(products, org, requests) == FirstRefusal(products, org, requests[..n])
    decreases |requests|
  {
    if n < |requests| {
      assert requests[..|requests| - 1][..n] == requests[..n];
      RefusalStays(products, org, requests[..|requests| - 1], n);
    } else {
      assert requests[..n] == requests;
    }
  }

  class ApplicationStore {
    var apps: map<string, App>
    var products: map<string, Product>
    var credentials: map<string, Credential>
    var grants: GrantTable

    function State(): Store
      reads this
    {
      Store(apps, products, credentials, grants)
    }

    /** The loop of `replaceManagedCredentialGrants`: one upsert per request, up to the first refusal. */
    method UpsertGrants(credential: string, org: string, requests: seq<Request>) returns (refusal: Option<GrantError>)
      requires !HasDuplicates(requests) && forall i :: 0 <= i < |requests| ==> requests[i].product in products
      modifies `grants
      ensures refusal == FirstRefusal(products, org, requests)
      ensures refusal.None? ==> AreUpserted(old(grants), grants, credential, requests, products, |requests|)
    {
      var n := 0;
      while n < |requests|
        invariant 0 <= n <= |requests|
        invariant FirstRefusal(products, org, requests[..n]).None?
        invariant AreUpserted(old(grants), grants, credential, requests, products, n)
      {
        refusal := Refusal(products, org, requests[n]);
        assert requests[..n + 1][..n] == requests[..n] && requests[..n + 1][n] == requests[n];
        if refusal.Some? {
          RefusalStays(products, org, requests, n + 1);
          return;
        }
        NextUpsert(old(grants), grants, credential, requests, products, n);
        grants := grants[(credential, requests[n].product) := Grant(Approved, WantedScopes(products, requests[n]))];
        n := n + 1;
      }
      assert requests[..n] == requests;
      refusal := None;
    }

    /** `replaceManagedCredentialGrants`: a refusal on the way undoes the upserts. */
    method ReplaceManagedCredentialGrants(credential: string, requests: seq<Request>) returns (r: Result<(), GrantError>)
      modifies `grants
      ensures r == PlanReplace(old(State()), credential, requests)
      ensures r.Err? ==> grants == old(grants)
      ensures r.Ok? ==> forall i :: 0 <= i < |requests| ==> requests[i].product in products
      ensures r.Ok? ==> IsReplaced(old(grants), grants, credential, requests, products)
    {
      if HasDuplicates(requests) { return Err(ProductNotFound); }
      if credential !in credentials || credentials[credential].app !in apps { return Err(CredentialNotFound); }
      var app := apps[credentials[credential].app];
      if credentials[credential].status.Revoked? || app.status.Revoked? { return Err(InvalidTransition); }
      if exists i :: 0 <= i < |requests| && requests[i].product !in products { return Err(ProductNotFound); }
      var found := grants;
      var refusal := UpsertGrants(credential, app.org, requests);
      if refusal.Some? {
        grants := found;
        return Err(refusal.value);
      }
      RevokingCompletes(found, grants, credential, requests, products);
      grants := RevokeOthers(grants, credential, requests);
      r := Ok(());
    }
  }

  function RevokeOthers(grants: GrantTable, credential: string, requests: seq<Request>): GrantTable {
    map key | key in grants ::
      if key.0 == credential && !IsRequested(requests, key.1) then grants[key].(status := Revoked) else grants[key]
  }

  lemma RevokingCompletes(
    before: GrantTable, now: GrantTable, credential: string, requests: seq<Request>, products: map<string, Product>)
    requires forall i :: 0 <= i < |requests| ==> requests[i].product in products
    requires AreUpserted(before, now, credential, requests, products, |requests|)
    ensures IsReplaced(before, RevokeOthers(now, credential, requests), credential, requests, products)
  {
    assert requests[..|requests|] == requests;
    forall i | 0 <= i < |requests| ensures IsRequested(requests, requests[i].product) {}
  }

  // -------------------------------------------------------------------- authorization

  /** `isCredentialValid`. */
  predicate IsCredentialValid(s: Store, credential: string, now: int) {
    && credential in s.credentials && s.credentials[credential].app in s.apps
    && s.credentials[credential].status.Approved? && s.apps[s.credentials[credential].app].status.Approved?
    && s.credentials[credential].issuedAt <= now
    && (s.credentials[credential].expiresAt.Some? ==> s.credentials[credential].expiresAt.value > now)
  }

  predicate Authorizes(s: Store, credential: string, product: string, environment: string, proxy: Option<string>) {
    && credential in s.credentials && s.credentials[credential].app in s.apps
    && (credential, product) in s.grants && product in s.products
    && var p := s.products[product];
    && s.grants[(credential, product)].status.Approved? && p.active
    && p.org == s.apps[s.credentials[credential].app].org
    && (p.environments == {} || environment in p.environments)
    && (proxy.Some? ==> proxy.value in p.proxies)
  }

  /** `authorizedProducts`: what the credential may use here, with the scopes of its grant
      that the product still declares. */
  ghost function AuthorizedProducts(s: Store, credential: string, environment: string, proxy: Option<string>): map<string, set<string>> {
    map product | product in s.products && Authorizes(s, credential, product, environment, proxy) ::
      s.grants[(credential, product)].scopes * s.products[product].scopes
  }

  predicate ServesHere(p: Product, environment: string, proxy: Option<string>) {
    (p.environments == {} || environment in p.environments) && (proxy.Some? ==> proxy.value in p.proxies)
  }

  lemma AcceptedRequest(products: map<string, Product>, org: string, requests: seq<Request>, i: nat)
    requires forall k :: 0 <= k < |requests| ==> requests[k].product in products
    requires FirstRefusal(products, org, requests).None? && i < |requests|
    ensures Refusal(products, org, requests[i]).None?
    decreases |requests|
  {}

  /** Switching a product off takes it, and nothing else, from what any credential may use;
      so does moving it to another organization. */
  lemma ProductsAreTakenAway(
    s: Store, credential: string, product: string, changed: Product, environment: string, proxy: Option<string>)
    requires product in s.products && credential in s.credentials && s.credentials[credential].app in s.apps
    requires !changed.active || changed.org != s.apps[s.credentials[credential].app].org
    ensures AuthorizedProducts(s.(products := s.products[product := changed]), credential, environment, proxy)
         == AuthorizedProducts(s, credential, environment, proxy) - {product}
  {}

  /** A product that no longer declares a scope no longer lends it. */
  lemma ScopesAreTakenAway(
    s: Store, credential: string, product: string, scopes: set<string>, environment: string, proxy: Option<string>)
    requires product in AuthorizedProducts(s, credential, environment, proxy)
    ensures var after := s.(products := s.products[product := s.products[product].(scopes := s.products[product].scopes - scopes)]);
            && product in AuthorizedProducts(after, credential, environment, proxy)
            && AuthorizedProducts(after, credential, environment, proxy)[product]
               == AuthorizedProducts(s, credential, environment, proxy)[product] - scopes
  {}

  /** A credential is valid from its issue to its expiry, if it has one, as long as it and its
      application are approved. */
  lemma ValidFromIssueToExpiry(s: Store, credential: string, now: int)
    requires credential in s.credentials && s.credentials[credential].app in s.apps
    ensures var c := s.credentials[credential];
            IsCredentialValid(s, credential, now)
            <==> c.status == Approved && s.apps[c.app].status == Approved && c.issuedAt <= now
                 && (c.expiresAt == None || exists t :: c.expiresAt == Some(t) && now < t)
  {
    var c := s.credentials[credential];
    if c.expiresAt.Some? { assert c.expiresAt == Some(c.expiresAt.value); }
  }

  /** Right after a replacement the gateway authorizes the requested products that serve
      the environment and proxy, each with the scopes asked for in full, and no others. */
  lemma ReplacementIsWhatIsAuthorized(
    s: Store, after: Store, credential: string, requests: seq<Request>, environment: string, proxy: Option<string>)
    requires PlanReplace(s, credential, requests).Ok? && after == s.(grants := after.grants)
    requires IsReplaced(s.grants, after.grants, credential, requests, s.products)
    ensures var authorized := AuthorizedProducts(after, credential, environment, proxy);
            && (forall product :: product in authorized <==>
                  IsRequested(requests, product) && ServesHere(s.products[product], environment, proxy))
            && (forall i :: 0 <= i < |requests| && requests[i].product in authorized ==>
                  authorized[requests[i].product] == WantedScopes(s.products, requests[i]))
  {
    var org := s.apps[s.credentials[credential].app].org;
    forall i | 0 <= i < |requests| ensures Refusal(s.products, org, requests[i]).None? {
      AcceptedRequest(s.products, org, requests, i);
    }
  }

  // --------------------------------------------------------------------------- cloning

  /** `resolveCloneExpiration`. */
  function ResolveCloneExpiration(playground: bool, requested: Option<int>, source: Option<int>, now: int)
    : Result<Option<int>, GrantError>
  {
    if !playground then
      if requested.Some? then Err(InvalidExpiration) else Ok(source)
    else
      var maximum := now + PLAYGROUND_LIFETIME_MS;
      var latest := if source.Some? && source.value < maximum then source.value else maximum;
      var expiresAt := if requested.Some? then requested.value else latest;
      if expiresAt <= now || expiresAt > latest then Err(InvalidExpiration) else Ok(Some(expiresAt))
  }

  predicate HasApprovedGrant(grants: GrantTable, credential: string) {
    exists key :: key in grants && key.0 == credential && grants[key].status.Approved?
  }

  function ClonedGrants(grants: GrantTable, source: string, clone: string): GrantTable {
    grants + map key | key in grants && key.0 == source && grants[key].status.Approved? :: (clone, key.1) := grants[key]
  }

  /** `cloneManagedCredential`; `clone` is the new credential's id. */
  function Clone(s: Store, app: string, source: string, clone: string, playground: bool, requested: Option<int>, now: int)
    : Result<Store, GrantError>
  {
    if app !in s.apps then Err(AppNotFound)
    else if source !in s.credentials then Err(CredentialNotFound)
    else
      var c := s.credentials[source];
      if c.app != app || c.status.Revoked? || s.apps[app].status.Revoked?
         || (c.expiresAt.Some? && c.expiresAt.value <= now) || !HasApprovedGrant(s.grants, source) then Err(CloneNotAllowed)
      else
        match ResolveCloneExpiration(playground, requested, c.expiresAt, now)
        case Err(e) => Err(e)
        case Ok(expiresAt) =>
          Ok(s.(credentials := s.credentials[clone := Credential(app, Approved, now, expiresAt)],
                grants := ClonedGrants(s.grants, source, clone)))
  }

  /** A credential is cloned exactly within its own application, neither of them revoked, while
      it lasts and has an approved grant. An end of one's own is for the playground only: it
      lies ahead, within 3,600,000 milliseconds, and not behind the source's. */
  lemma CloneSucceedsIff(s: Store, app: string, source: string, clone: string, playground: bool, requested: Option<int>, now: int)
    ensures Clone(s, app, source, clone, playground, requested, now).Ok?
       <==>
         && app in s.apps && source in s.credentials && s.credentials[source].app == app
         && !s.credentials[source].status.Revoked? && !s.apps[app].status.Revoked?
         && (s.credentials[source].expiresAt.Some? ==> now < s.credentials[source].expiresAt.value)
         && (exists product :: (source, product) in s.grants && s.grants[(source, product)].status.Approved?)
         && (requested.Some? ==>
               && playground && now < requested.value <= now + 3_600_000
               && (s.credentials[source].expiresAt.Some? ==> requested.value <= s.credentials[source].expiresAt.value))
    ensures var cloned := Clone(s, app, source, clone, playground, requested, now);
            cloned.Ok? && clone !in s.credentials ==>
              && cloned.value.credentials.Keys == s.credentials.Keys + {clone}
              && cloned.value.credentials[clone].app == app && cloned.value.credentials[clone].issuedAt == now
              && cloned.value.credentials[clone].status.Approved?
              && (requested.Some? ==> cloned.value.credentials[clone].expiresAt == requested)
              && (forall c :: c in s.credentials ==> cloned.value.credentials[c] == s.credentials[c])
              && cloned.value.apps == s.apps && cloned.value.products == s.products
  {
    if HasApprovedGrant(s.grants, source) {
      var key :| key in s.grants && key.0 == source && s.grants[key].status.Approved?;
      assert key == (source, key.1);
    }
  }

  lemma CloneAuthorizesProduct(
    s: Store, app: string, source: string, clone: string, playground: bool, requested: Option<int>, now: int,
    product: string, environment: string, proxy: Option<string>)
    requires clone !in s.credentials && forall key :: key in s.grants ==> key.0 in s.credentials
    requires Clone(s, app, source, clone, playground, requested, now).Ok?
    ensures var after := Clone(s, app, source, clone, playground, requested, now).value;
            && (Authorizes(after, clone, product, environment, proxy) <==> Authorizes(s, source, product, environment, proxy))
            && (Authorizes(after, source, product, environment, proxy) <==> Authorizes(s, source, product, environment, proxy))
            && (Authorizes(s, source, product, environment, proxy) ==>
                  && after.grants[(clone, product)] == s.grants[(source, product)]
                  && after.grants[(source, product)] == s.grants[(source, product)])
  {
    ClonedGrant(s.grants, source, clone, product);
  }

  ghost predicate AuthorizeAlike(
    a: Store, x: string, b: Store, y: string, product: string, environment: string, proxy: Option<string>)
  {
    && (Authorizes(a, x, product, environment, proxy) <==> Authorizes(b, y, product, environment, proxy))
    && (Authorizes(a, x, product, environment, proxy) ==> a.grants[(x, product)] == b.grants[(y, product)])
  }

  lemma AlikeInAll(a: Store, x: string, b: Store, y: string, environment: string, proxy: Option<string>)
    requires a.products == b.products
    requires forall product :: product in a.products ==> AuthorizeAlike(a, x, b, y, product, environment, proxy)
    ensures AuthorizedProducts(a, x, environment, proxy) == AuthorizedProducts(b, y, environment, proxy)
  {}

  /** A clone authorizes what its source's grants authorize, product for product and scope
      for scope, in every environment and for every proxy; the source is not affected. */
  lemma ClonesAuthorizeAlike(
    s: Store, app: string, source: string, clone: string, playground: bool, requested: Option<int>, now: int,
    environment: string, proxy: Option<string>)
    requires clone !in s.credentials && forall key :: key in s.grants ==> key.0 in s.credentials
    requires Clone(s, app, source, clone, playground, requested, now).Ok?
    ensures var after := Clone(s, app, source, clone, playground, requested, now).value;
            && AuthorizedProducts(after, clone, environment, proxy) == AuthorizedProducts(s, source, environment, proxy)
            && AuthorizedProducts(after, source, environment, proxy) == AuthorizedProducts(s, source, environment, proxy)
  {
    var after := Clone(s, app, source, clone, playground, requested, now).value;
    forall product | product in s.products
      ensures AuthorizeAlike(after, clone, s, source, product, environment, proxy)
      ensures AuthorizeAlike(after, source, s, source, product, environment, proxy)
    {
      CloneAuthorizesProduct(s, app, source, clone, playground, requested, now, product, environment, proxy);
    }
    AlikeInAll(after, clone, s, source, environment, proxy);
    AlikeInAll(after, source, s, source, environment, proxy);
  }

  lemma ClonedGrant(grants: GrantTable, source: string, clone: string, product: string)
    requires clone != source && forall key :: key in grants ==> key.0 != clone
    ensures var after := ClonedGrants(grants, source, clone);
            && ((clone, product) in after <==> (source, product) in grants && grants[(source, product)].status.Approved?)
            && ((clone, product) in after ==> after[(clone, product)] == grants[(source, product)])
            && ((source, product) in grants <==> (source, product) in after)
            && ((source, product) in after ==> after[(source, product)] == grants[(source, product)])
  {}

  /** A clone never outlives the expiry its source had, nor, for the playground, one hour;
      from its creation on it is valid exactly while its application is approved and its
      own expiry has not come, whether or not the source was already approved. */
  lemma ClonesExpireInTime(
    s: Store, app: string, source: string, clone: string, playground: bool, requested: Option<int>, now: int, t: int)
    requires clone !in s.credentials && t >= now && Clone(s, app, source, clone, playground, requested, now).Ok?
    ensures var after := Clone(s, app, source, clone, playground, requested, now).value;
            var expiresAt := after.credentials[clone].expiresAt;
            && (IsCredentialValid(after, clone, t) <==> s.apps[app].status.Approved? && (expiresAt.Some? ==> t < expiresAt.value))
            && (s.credentials[source].expiresAt.Some? ==>
                  expiresAt.Some? && expiresAt.value <= s.credentials[source].expiresAt.value)
            && (playground ==> expiresAt.Some? && now < expiresAt.value <= now + 3_600_000)
            && (!playground ==> expiresAt == s.credentials[source].expiresAt)
            && (IsCredentialValid(s, source, t) ==>
                  (IsCredentialValid(after, clone, t) <==> expiresAt.Some? ==> t < expiresAt.value))
  {}
}
