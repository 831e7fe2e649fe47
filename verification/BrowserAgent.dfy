/** The agent as an object: its tables updated in place, one method for each stretch
    that runs without an await. */
module BrowserAgent {
  import opened Schema
  import opened TrustedClients
  import opened PairingCodes
  import opened AgentAuth

  /** The loop of `cleanup` over one table, entries visited in any order. */
  method DropExpired<T>(table: map<nat, T>, expiry: T -> int, now: int) returns (kept: map<nat, T>)
    ensures kept == map k | k in table && expiry(table[k]) > now :: table[k]
  {
    kept := table;
    var remaining := table.Keys;
    while remaining != {}
      invariant remaining <= table.Keys && kept.Keys <= table.Keys
      invariant forall k :: k in table ==> (k in kept <==> k in remaining || expiry(table[k]) > now)
      invariant forall k :: k in kept ==> kept[k] == table[k]
      decreases remaining
    {
      var id :| id in remaining;
      if expiry(table[id]) <= now {
        kept := kept - {id};
      }
      remaining := remaining - {id};
    }
  }

  class BrowserAgentAuth {
    const setup: Setup
    var pairings: map<nat, Pairing>
    var challenges: map<nat, Challenge>
    var sessions: map<nat, Session>
    var clients: seq<Client>
    var queue: seq<Mutation>
    var calls: map<nat, Call>
    var log: seq<Event>

    function State(): Agent
      reads this
    {
      Agent(pairings, challenges, sessions, clients, queue, calls, log)
    }

    constructor (setup: Setup)
      ensures this.setup == setup && State() == Agent(map[], map[], map[], [], [], map[], [])
    {
      this.setup := setup;
      pairings, challenges, sessions, clients := map[], map[], map[], [];
      queue, calls, log := [], map[], [];
    }

    method Cleanup(now: int)
      modifies this
      ensures State() == Cleaned(old(State()), now)
    {
      pairings := DropExpired(pairings, (p: Pairing) => p.expiresAt, now);
      challenges := DropExpired(challenges, (c: Challenge) => c.expiresAt, now);
      sessions := DropExpired(sessions, (s: Session) => s.expiresAt, now);
    }

    /** `find` over the sessions, in any order. */
    method FindSession(token: nat, origin: string) returns (found: Option<nat>)
      ensures IsSessionFound(sessions, token, origin, found)
    {
      var remaining := sessions.Keys;
      while remaining != {}
        invariant remaining <= sessions.Keys
        invariant forall s :: s in sessions && s !in remaining ==> sessions[s].origin != origin || sessions[s].token != token
        decreases remaining
      {
        var id :| id in remaining;
        if sessions[id].origin == origin && sessions[id].token == token {
          return Some(id);
        }
        remaining := remaining - {id};
      }
      found := None;
    }

    /** `find` over the pending pairings, in any order. */
    method FindDuplicate(client: string, origin: string) returns (found: Option<nat>)
      ensures IsDuplicateFound(pairings, client, origin, found)
    {
      var remaining := pairings.Keys;
      while remaining != {}
        invariant remaining <= pairings.Keys
        invariant forall p :: p in pairings && p !in remaining ==> pairings[p].client != client || pairings[p].origin != origin
        decreases remaining
      {
        var id :| id in remaining;
        if pairings[id].client == client && pairings[id].origin == origin {
          return Some(id);
        }
        remaining := remaining - {id};
      }
      found := None;
    }

    method End(call: nat)
      modifies `calls
      ensures calls == old(calls) - {call}
    {
      calls := calls - {call};
    }

    method CreatePairingResumes(call: nat, pairing: nat, nonce: nat, code: string, now: int) returns (ghost duplicate: Option<nat>)
      requires HasLooked(State(), call) && calls[call].purpose.ToPair? && !IsOpened(log, pairing)
      modifies this
      ensures IsPossible(old(State()), ResumeCreatePairing(call, duplicate, pairing, nonce, code, now))
      ensures State() == AfterStep(setup, old(State()), ResumeCreatePairing(call, duplicate, pairing, nonce, code, now))
    {
      var input := calls[call];
      var found := FindDuplicate(input.client, input.origin);
      duplicate := found;
      End(call);
      if input.seen.value.Some? {
        return;
      }
      if found.Some? && now - pairings[found.value].createdAt < PAIRING_COOLDOWN_MS {
        return;
      }
      if found.Some? {
        pairings := pairings - {found.value};
      }
      if |pairings| >= MAX_PAIRINGS {
        return;
      }
      var opening := Pairing(input.client, input.origin, input.purpose.key, nonce, code, 0, now, now + PAIRING_TTL_MS);
      pairings := pairings[pairing := opening];
      log := log + [PairingOpened(pairing, opening)];
    }

    method CompletePairingBegins(call: nat, pairing: nat, typed: string, signature: string, now: int)
      requires call !in calls
      modifies this
      ensures State() == AfterStep(setup, old(State()), BeginCompletePairing(call, pairing, typed, signature, now))
    {
      Cleanup(now);
      Decide(call, pairing, typed, signature, now);
    }

    method Decide(call: nat, pairing: nat, typed: string, signature: string, now: int)
      modifies this
      ensures State() == DecidePairing(setup, old(State()), call, pairing, typed, signature, now)
    {
      if pairing !in pairings {
        return;
      }
      var p := pairings[pairing];
      var attempts := p.attempts + 1;
      pairings := pairings[pairing := p.(attempts := attempts)];
      if Normalize(typed) != p.code {
        if attempts >= MAX_CODE_ATTEMPTS {
          DroppedAfterCounting(pairings, p.(attempts := attempts), pairing);
          pairings := pairings - {pairing};
        }
        log := log + [WrongCode(pairing)];
        return;
      }
      if !setup.verify(p.key, PairingMessage(pairing, p.nonce, p.origin, setup.instance, p.client), signature) {
        return;
      }
      DroppedAfterCounting(pairings, p.(attempts := attempts), pairing);
      pairings := pairings - {pairing};
      var entry := Client(p.client, p.origin, p.key, now + setup.trustDays * DAY_MS, now, false);
      queue := queue + [RegisterEntry(call, pairing, entry, now)];
      calls := calls[call := Registering(pairing, entry, None)];
      log := log + [PairingAccepted(pairing, entry, typed, signature, now)];
    }

    method CompleteSessionBegins(call: nat, challenge: nat, signature: string, now: int)
      requires call !in calls
      modifies this
      ensures State() == AfterStep(setup, old(State()), BeginCompleteSession(call, challenge, signature, now))
    {
      Cleanup(now);
      if challenge !in challenges {
        return;
      }
      var c := challenges[challenge];
      challenges := challenges - {challenge};
      calls := calls[call := Looking(ToProve(challenge, c.nonce, signature), c.client, c.origin, now, None)];
      log := log + [ChallengeSpent(challenge, now)];
    }

    method CompleteSessionResumes(call: nat, now: int)
      requires HasLooked(State(), call) && calls[call].purpose.ToProve?
      modifies this
      ensures State() == AfterStep(setup, old(State()), ResumeCompleteSession(call, now))
    {
      var c := calls[call];
      if c.seen.value.None? {
        End(call);
        return;
      }
      var entry := c.seen.value.value;
      var message := SessionMessage(c.purpose.challenge, c.purpose.nonce, c.origin, setup.instance, c.client);
      if !setup.verify(entry.key, message, c.purpose.signature) {
        End(call);
        return;
      }
      queue := queue + [TouchEntry(call, entry.id, entry.origin, now)];
      calls := calls[call := Touching(c.purpose.challenge, entry.id, entry.origin, false)];
      log := log + [SessionProved(c.purpose.challenge, entry, c.purpose.signature)];
    }

    method AuthorizeBegins(call: nat, token: nat, origin: string, now: int) returns (ghost found: Option<nat>)
      requires call !in calls
      modifies this
      ensures IsPossible(old(State()), BeginAuthorize(call, token, origin, found, now))
      ensures State() == AfterStep(setup, old(State()), BeginAuthorize(call, token, origin, found, now))
    {
      Cleanup(now);
      var entry := FindSession(token, origin);
      found := entry;
      if entry.None? {
        return;
      }
      var session := sessions[entry.value];
      calls := calls[call := Looking(ToAuthorize(entry.value, token, session.expiresAt), session.client, origin, now, None)];
    }

    method AuthorizeResumes(call: nat) returns (ok: bool)
      requires HasLooked(State(), call) && calls[call].purpose.ToAuthorize?
      modifies this
      ensures State() == AfterStep(setup, old(State()), ResumeAuthorize(call))
      ensures ok <==> old(calls[call].seen.value.Some?)
    {
      var c := calls[call];
      End(call);
      if c.seen.value.None? {
        sessions := sessions - {c.purpose.session};
        return false;
      }
      log := log + [Authorized(c.purpose.session, c.purpose.token, c.client, c.origin, c.at, c.purpose.expiresAt)];
      ok := true;
    }

    /** `issueSession`, at the end of a completed pairing or session. */
    method IssueSession(call: nat, session: nat, token: nat, source: Source, client: string, origin: string, now: int)
      modifies this
      ensures State() == Issue(old(State()), call, session, token, source, client, origin, now)
    {
      sessions := sessions[session := Session(token, client, origin, now + SESSION_TTL_MS)];
      End(call);
      log := log + [SessionIssued(session, token, source, client, origin, now, now + SESSION_TTL_MS)];
    }

    /** The mutation queue runs its head: read, change, write, with no other mutation between. */
    method RunMutations(stored: bool)
      modifies this
      ensures old(queue) == [] ==> State() == old(State())
      ensures old(queue) != [] ==> State() == Mutate(old(State()), stored)
    {
      if queue == [] {
        return;
      }
      var m := queue[0];
      queue := queue[1..];
      match m
      case RegisterEntry(call, pairing, entry, now) =>
        var registered := Register(clients, entry, now);
        var ok := stored && registered.Some?;
        if call in calls && calls[call] == Registering(pairing, entry, None) {
          calls := calls[call := Registering(pairing, entry, Some(ok))];
        }
        if ok {
          clients := registered.value;
          log := log + [Registered(pairing, entry)];
        }
      case TouchEntry(call, client, origin, now) =>
        if stored {
          clients := Touch(clients, client, origin, now);
        }
        if call in calls && calls[call].Touching? {
          if stored {
            calls := calls[call := calls[call].(settled := true)];
          } else {
            End(call);
          }
        }
      case RevokeEntry(id) =>
        if stored {
          clients := Revoke(clients, id);
        }
    }
  }

  lemma DroppedAfterCounting(pairings: map<nat, Pairing>, p: Pairing, pairing: nat)
    ensures pairings[pairing := p] - {pairing} == pairings - {pairing}
  {}
}
