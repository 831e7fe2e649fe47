/** The registry of trusted browser clients: lookups, and the changes its mutation queue applies in order. */
module TrustedClients {
  import opened Schema
  import opened Seqs

  const TOUCH_INTERVAL_MS: int := 3_600_000
  const DAY_MS: int := 86_400_000

  datatype Client = Client(id: string, origin: string, key: string, expiresAt: int, lastSeenAt: int, revoked: bool)

  predicate IsEntry(c: Client, id: string, origin: string) {
    c.id == id && c.origin == origin
  }

  predicate IsActive(c: Client, now: int) {
    !c.revoked && c.expiresAt > now
  }

  /** `Array.find` over the entries of a (client, origin) pair. */
  function Find(clients: seq<Client>, id: string, origin: string): (r: Option<Client>)
    ensures r.Some? ==> r.value in clients && IsEntry(r.value, id, origin)
    ensures r.None? <==> forall c :: c in clients ==> !IsEntry(c, id, origin)
  {
    if clients == [] then None
    else if IsEntry(clients[0], id, origin) then Some(clients[0])
    else Find(clients[1..], id, origin)
  }

  /** `findActive`. */
  function FindActive(clients: seq<Client>, id: string, origin: string, now: int): (r: Option<Client>)
    ensures r.Some? ==> r.value in clients && IsEntry(r.value, id, origin) && IsActive(r.value, now)
  {
    match Find(clients, id, origin)
    case Some(c) => if IsActive(c, now) then Some(c) else None
    case None => None
  }

  function Without(clients: seq<Client>, id: string, origin: string): (r: seq<Client>)
    ensures forall c :: c in r <==> c in clients && !IsEntry(c, id, origin)
  {
    if clients == [] then []
    else (if IsEntry(clients[0], id, origin) then [] else [clients[0]]) + Without(clients[1..], id, origin)
  }

  /** `register`'s change: None when it throws. */
  function Register(clients: seq<Client>, client: Client, now: int): Option<seq<Client>> {
    if FindActive(clients, client.id, client.origin, now).Some? then None
    else Some(Without(clients, client.id, client.origin) + [client])
  }

  /** `touch`'s change. */
  function Touch(clients: seq<Client>, id: string, origin: string, now: int): (r: seq<Client>)
    ensures |r| == |clients|
    ensures forall k :: 0 <= k < |clients| ==> r[k] == clients[k] || r[k] == clients[k].(lastSeenAt := now)
  {
    if clients == [] then []
    else if IsEntry(clients[0], id, origin) then
      var c := clients[0];
      [if !c.revoked && now - c.lastSeenAt >= TOUCH_INTERVAL_MS then c.(lastSeenAt := now) else c] + clients[1..]
    else [clients[0]] + Touch(clients[1..], id, origin, now)
  }

  /** `revoke`'s change: the first entry with the id, whatever its origin. */
  function Revoke(clients: seq<Client>, id: string): (r: seq<Client>)
    ensures |r| == |clients|
    ensures forall k :: 0 <= k < |clients| ==> r[k] == clients[k] || r[k] == clients[k].(revoked := true)
  {
    if clients == [] then []
    else if clients[0].id == id then [clients[0].(revoked := true)] + clients[1..]
    else [clients[0]] + Revoke(clients[1..], id)
  }

  /** At most one entry per (client, origin). */
  ghost predicate EntriesAreUnique(clients: seq<Client>) {
    forall i, j :: 0 <= i < j < |clients| ==> clients[i].id != clients[j].id || clients[i].origin != clients[j].origin
  }

  /** Entries that survive a registration keep their order, none twice. */
  lemma {:induction false} WithoutKeepsUnique(clients: seq<Client>, id: string, origin: string)
    requires EntriesAreUnique(clients)
    ensures EntriesAreUnique(Without(clients, id, origin))
    decreases |clients|
  {
    if clients != [] {
      WithoutKeepsUnique(clients[1..], id, origin);
      var rest := Without(clients[1..], id, origin);
      forall j | 0 <= j < |rest| ensures rest[j].id != clients[0].id || rest[j].origin != clients[0].origin {
        assert rest[j] in clients[1..];
      }
    }
  }

  lemma RegisterKeepsUnique(clients: seq<Client>, client: Client, now: int)
    requires EntriesAreUnique(clients) && Register(clients, client, now).Some?
    ensures EntriesAreUnique(Register(clients, client, now).value)
  {
    WithoutKeepsUnique(clients, client.id, client.origin);
    var rest := Without(clients, client.id, client.origin);
    forall j | 0 <= j < |rest| ensures !IsEntry(rest[j], client.id, client.origin) {
      assert rest[j] in rest;
    }
  }

  /** A registration is what the next lookup of its pair finds, and lookups of other
      pairs do not notice it. */
  lemma {:induction false} FindAfterRegister(clients: seq<Client>, client: Client, id: string, origin: string)
    ensures Find(Without(clients, client.id, client.origin) + [client], id, origin)
         == if IsEntry(client, id, origin) then Some(client) else Find(clients, id, origin)
    decreases |clients|
  {
    if clients != [] {
      var tail := Without(clients[1..], client.id, client.origin);
      FindAfterRegister(clients[1..], client, id, origin);
      if IsEntry(clients[0], client.id, client.origin) {
        EmptyFront(tail);
      } else {
        Associate([clients[0]], tail, [client]);
        FindFirst(clients[0], tail + [client], id, origin);
      }
    }
  }

  lemma FindFirst(first: Client, rest: seq<Client>, id: string, origin: string)
    ensures Find([first] + rest, id, origin) == if IsEntry(first, id, origin) then Some(first) else Find(rest, id, origin)
  {}

  /** A client is registered exactly unless it is active already, and is then what the next
      lookup of its pair finds. */
  lemma RegisterSucceedsIff(clients: seq<Client>, client: Client, now: int)
    ensures var registered := Register(clients, client, now);
            && (registered.None? <==> FindActive(clients, client.id, client.origin, now).Some?)
            && (registered.Some? ==> forall id, origin ::
                  Find(registered.value, id, origin)
                  == if IsEntry(client, id, origin) then Some(client) else Find(clients, id, origin))
  {
    forall id, origin
      ensures Find(Without(clients, client.id, client.origin) + [client], id, origin)
           == if IsEntry(client, id, origin) then Some(client) else Find(clients, id, origin)
    {
      FindAfterRegister(clients, client, id, origin);
    }
  }

  /** Touching moves the last sight of the pair's entry, and of no other, when it is an hour
      old or older and the entry is not revoked. */
  lemma {:induction false} TouchMovesIff(clients: seq<Client>, id: string, origin: string, now: int, other: string, o: string)
    ensures Find(Touch(clients, id, origin, now), other, o)
         == match Find(clients, other, o)
            case None => None
            case Some(c) =>
              Some(if other == id && o == origin && !c.revoked && now >= c.lastSeenAt + 3_600_000 then c.(lastSeenAt := now) else c)
    decreases |clients|
  {
    if clients != [] {
      var touched := Touch(clients, id, origin, now);
      FindFirst(touched[0], touched[1..], other, o);
      FindFirst(clients[0], clients[1..], other, o);
      HeadFirst(touched, []);
      HeadFirst(clients, []);
      if !IsEntry(clients[0], id, origin) { TouchMovesIff(clients[1..], id, origin, now, other, o); }
    }
  }

  /** The position of the first entry of the pair. */
  predicate IsFirstEntry(clients: seq<Client>, k: nat, id: string, origin: string) {
    && k < |clients| && clients[k].id == id && clients[k].origin == origin
    && forall j :: 0 <= j < k ==> clients[j].id != id || clients[j].origin != origin
  }

  lemma FirstEntryBehind(clients: seq<Client>, k: nat, id: string, origin: string)
    requires clients != [] && !IsEntry(clients[0], id, origin)
    ensures IsFirstEntry(clients, k + 1, id, origin) <==> IsFirstEntry(clients[1..], k, id, origin)
  {
    assert forall j :: 0 < j < |clients| ==> clients[j] == clients[1..][j - 1];
    if IsFirstEntry(clients, k + 1, id, origin) {
      forall j | 0 <= j < k ensures clients[1..][j].id != id || clients[1..][j].origin != origin {
        assert clients[1..][j] == clients[j + 1];
      }
    }
  }

  /** A client is trusted for an origin exactly as the first entry of the pair is neither
      revoked nor at its end. */
  lemma {:induction false} TrustedIff(clients: seq<Client>, id: string, origin: string, now: int, c: Client)
    ensures FindActive(clients, id, origin, now) == Some(c)
       <==> exists k: nat :: IsFirstEntry(clients, k, id, origin) && clients[k] == c && !c.revoked && now < c.expiresAt
    decreases |clients|
  {
    if clients != [] {
      if IsEntry(clients[0], id, origin) {
        assert IsFirstEntry(clients, 0, id, origin);
      } else {
        TrustedIff(clients[1..], id, origin, now, c);
        if k: nat :| IsFirstEntry(clients[1..], k, id, origin) && clients[1..][k] == c && !c.revoked && now < c.expiresAt {
          FirstEntryBehind(clients, k, id, origin);
        }
        if k: nat :| IsFirstEntry(clients, k, id, origin) && clients[k] == c && !c.revoked && now < c.expiresAt {
          FirstEntryBehind(clients, k - 1, id, origin);
        }
      }
    }
  }

  /** The position of the first entry with the id. */
  predicate IsFirstOf(clients: seq<Client>, k: nat, id: string) {
    k < |clients| && clients[k].id == id && forall j :: 0 <= j < k ==> clients[j].id != id
  }

  lemma {:induction false} RevokeMarksTheFirst(clients: seq<Client>, id: string, k: nat)
    requires IsFirstOf(clients, k, id)
    ensures Revoke(clients, id) == clients[k := clients[k].(revoked := true)]
    decreases |clients|
  {
    UpdateBehind(clients, k, clients[k].(revoked := true));
    if k > 0 {
      assert clients[0].id != id && clients[1..][k - 1] == clients[k];
      assert IsFirstOf(clients[1..], k - 1, id);
      RevokeMarksTheFirst(clients[1..], id, k - 1);
    }
  }

  lemma {:induction false} NothingToRevoke(clients: seq<Client>, id: string)
    requires forall c :: c in clients ==> c.id != id
    ensures Revoke(clients, id) == clients
  {
    if clients != [] {
      assert clients[0] in clients;
      NothingToRevoke(clients[1..], id);
    }
  }

  /** Revoking an id leaves no active registration of it exactly when every entry after
      its first was inactive already: the origin is not asked for. */
  lemma RevokeClosesTheIdIff(clients: seq<Client>, id: string, now: int, k: nat)
    requires IsFirstOf(clients, k, id)
    ensures (forall c :: c in Revoke(clients, id) && c.id == id ==> !IsActive(c, now))
       <==> (forall j :: k < j < |clients| && clients[j].id == id ==> !IsActive(clients[j], now))
  {
    RevokeMarksTheFirst(clients, id, k);
    var after := Revoke(clients, id);
    forall j | k < j < |clients| ensures after[j] == clients[j] && after[j] in after {}
  }
}
