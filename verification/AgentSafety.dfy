/** What every interleaving of the agent's calls keeps true. */
module AgentSafety {
  import opened Schema
  import opened Seqs
  import opened TrustedClients
  import opened PairingCodes
  import opened AgentAuth

  // ------------------------------------------------------------------- the invariant

  ghost predicate LogInv(s: Setup, log: seq<Event>) {
    IsTraced(s, log) && forall p: nat :: WrongCodes(log, p) <= MAX_CODE_ATTEMPTS
  }

  /** A pending pairing is as it was opened and undecided, and the wrong codes tried on it are
      among its attempts. */
  ghost predicate PairingInv(log: seq<Event>, id: nat, p: Pairing) {
    && PairingOpened(id, p.(attempts := 0)) in log && !IsAccepted(log, id)
    && WrongCodes(log, id) <= p.attempts && WrongCodes(log, id) < MAX_CODE_ATTEMPTS
  }

  ghost predicate PairingsInv(log: seq<Event>, pairings: map<nat, Pairing>) {
    && |pairings| <= MAX_PAIRINGS
    && forall id :: id in pairings ==> PairingInv(log, id, pairings[id])
  }

  ghost predicate IsAskedAs(log: seq<Event>, id: nat, asked: Challenge) {
    exists at :: ChallengeOpened(id, asked, at) in log
  }

  ghost predicate ChallengesInv(log: seq<Event>, challenges: map<nat, Challenge>) {
    forall id :: id in challenges ==> IsAskedAs(log, id, challenges[id]) && !IsSpent(log, id)
  }

  ghost predicate SessionsInv(log: seq<Event>, sessions: map<nat, Session>) {
    forall id :: id in sessions ==> IsIssuedTo(log, id, sessions[id])
  }

  /** Every registry entry was put there by a completed pairing, and so will be the queued ones. */
  ghost predicate RegistryInv(log: seq<Event>, clients: seq<Client>, queue: seq<Mutation>) {
    && EntriesAreUnique(clients)
    && (forall c :: c in clients ==> IsKnown(log, c))
    && (forall m :: m in queue && m.RegisterEntry? ==> IsAcceptedFor(log, m.pairing, m.entry))
  }

  /** What a call will mint a session from. */
  function SourceOf(c: Call): Option<Source> {
    match c
    case Looking(ToProve(challenge, _, _), _, _, _, _) => Some(FromChallenge(challenge))
    case Registering(pairing, _, _) => Some(FromPairing(pairing))
    case Touching(challenge, _, _, _) => Some(FromChallenge(challenge))
    case _ => None
  }

  ghost predicate IsBegun(log: seq<Event>, source: Source) {
    match source
    case FromPairing(pairing) => IsAccepted(log, pairing)
    case FromChallenge(challenge) => IsSpent(log, challenge)
  }

  /** The challenge was asked for this client and origin, with this nonce. */
  ghost predicate IsAskedOf(log: seq<Event>, id: nat, client: string, origin: string, nonce: nat) {
    exists asked, at :: ChallengeOpened(id, asked, at) in log
      && asked.client == client && asked.origin == origin && asked.nonce == nonce
  }

  ghost predicate LookingInv(log: seq<Event>, c: Call)
    requires c.Looking?
  {
    && (c.purpose.ToAuthorize? ==>
          && c.at < c.purpose.expiresAt
          && IsIssuedTo(log, c.purpose.session, Session(c.purpose.token, c.client, c.origin, c.purpose.expiresAt)))
    && (c.purpose.ToProve? ==> IsAskedOf(log, c.purpose.challenge, c.client, c.origin, c.purpose.nonce))
    && (c.seen.Some? && c.seen.value.Some? ==>
          && IsEntry(c.seen.value.value, c.client, c.origin) && IsKnown(log, c.seen.value.value)
          && (c.purpose.ToAuthorize? ==> IsChecked(log, c.purpose.session, c.client, c.origin, c.at)))
  }

  ghost predicate CallInv(log: seq<Event>, c: Call) {
    && (SourceOf(c).Some? ==> IsBegun(log, SourceOf(c).value) && !IsIssued(log, SourceOf(c).value))
    && match c
       case Looking(_, _, _, _, _) => LookingInv(log, c)
       case Registering(pairing, entry, outcome) =>
         outcome == Some(true) ==> IsPaired(log, pairing, entry.id, entry.origin)
       case Touching(challenge, client, origin, _) => IsProved(log, challenge, client, origin)
  }

  /** Each accepted pairing and each spent challenge is in the hands of one call at most. */
  ghost predicate CallsInv(log: seq<Event>, calls: map<nat, Call>) {
    && (forall k :: k in calls ==> CallInv(log, calls[k]))
    && (forall j, k :: j in calls && k in calls && j != k && SourceOf(calls[j]).Some? ==>
          SourceOf(calls[j]) != SourceOf(calls[k]))
  }

  ghost predicate AgentInv(s: Setup, a: Agent) {
    && LogInv(s, a.log) && PairingsInv(a.log, a.pairings) && ChallengesInv(a.log, a.challenges)
    && SessionsInv(a.log, a.sessions) && RegistryInv(a.log, a.clients, a.queue) && CallsInv(a.log, a.calls)
  }

  // ------------------------------------------------------------- one more event

  lemma TraceGrows(s: Setup, log: seq<Event>, e: Event)
    requires IsTraced(s, log) && IsJustified(s, log, e)
    ensures IsTraced(s, log + [e])
  {
    var longer := log + [e];
    forall i | 0 <= i < |longer| ensures longer[..i] == log[..i] && longer[i] == if i < |log| then log[i] else e {}
    TakeAll(log);
    forall i | 0 <= i < |longer| ensures IsJustified(s, log[..i], longer[i]) {}
  }

  lemma LogGrows(s: Setup, log: seq<Event>, e: Event)
    requires LogInv(s, log) && IsJustified(s, log, e)
    requires e.WrongCode? ==> WrongCodes(log, e.pairing) < MAX_CODE_ATTEMPTS
    ensures LogInv(s, log + [e])
  {
    TraceGrows(s, log, e);
    forall p: nat ensures WrongCodes(log + [e], p) <= MAX_CODE_ATTEMPTS {
      WrongCodesGrow(log, e, p);
    }
  }

  lemma WrongCodesGrow(log: seq<Event>, e: Event, p: nat)
    ensures WrongCodes(log + [e], p) == WrongCodes(log, p) + if e == WrongCode(p) then 1 else 0
  {}

  lemma AcceptedGrows(log: seq<Event>, e: Event, p: nat)
    ensures IsAccepted(log + [e], p) <==> IsAccepted(log, p) || (e.PairingAccepted? && e.pairing == p)
  {}

  lemma PairingsGrow(log: seq<Event>, e: Event, pairings: map<nat, Pairing>)
    requires PairingsInv(log, pairings)
    requires e.WrongCode? || e.PairingAccepted? ==> e.pairing !in pairings
    ensures PairingsInv(log + [e], pairings)
  {}

  lemma SessionsGrow(log: seq<Event>, e: Event, sessions: map<nat, Session>)
    requires SessionsInv(log, sessions)
    ensures SessionsInv(log + [e], sessions)
  {}

  lemma RegistryGrows(log: seq<Event>, e: Event, clients: seq<Client>, queue: seq<Mutation>)
    requires RegistryInv(log, clients, queue)
    ensures RegistryInv(log + [e], clients, queue)
  {}

  lemma CallsGrow(log: seq<Event>, e: Event, calls: map<nat, Call>)
    requires CallsInv(log, calls)
    requires e.SessionIssued? ==> forall k :: k in calls ==> SourceOf(calls[k]) != Some(e.source)
    ensures CallsInv(log + [e], calls)
  {}

  /** An event that is justified and decides nothing still pending or in hand can be noted. */
  lemma NotedKeepsAgent(s: Setup, a: Agent, e: Event)
    requires AgentInv(s, a) && IsJustified(s, a.log, e)
    requires e.WrongCode? || e.PairingAccepted? ==> e.pairing !in a.pairings
    requires e.WrongCode? ==> WrongCodes(a.log, e.pairing) < MAX_CODE_ATTEMPTS
    requires e.ChallengeSpent? ==> e.challenge !in a.challenges
    requires e.SessionIssued? ==> forall k :: k in a.calls ==> SourceOf(a.calls[k]) != Some(e.source)
    ensures AgentInv(s, Noted(a, e))
  {
    LogGrows(s, a.log, e);
    PairingsGrow(a.log, e, a.pairings);
    SessionsGrow(a.log, e, a.sessions);
    RegistryGrows(a.log, e, a.clients, a.queue);
    CallsGrow(a.log, e, a.calls);
  }

  lemma EndedKeepsAgent(s: Setup, a: Agent, call: nat)
    requires AgentInv(s, a)
    ensures AgentInv(s, Ended(a, call))
  {}

  lemma SuspendedKeepsAgent(s: Setup, a: Agent, call: nat, c: Call)
    requires AgentInv(s, a) && CallInv(a.log, c)
    requires SourceOf(c).Some? ==> forall k :: k in a.calls && k != call ==> SourceOf(a.calls[k]) != SourceOf(c)
    ensures AgentInv(s, Suspended(a, call, c))
  {}

  lemma FewerPairings(before: map<nat, Pairing>, after: map<nat, Pairing>)
    requires after.Keys <= before.Keys
    ensures |after| <= |before|
  {
    CardinalityGrows(after.Keys, before.Keys);
    assert |after| == |after.Keys| && |before| == |before.Keys|;
  }

  lemma CardinalityGrows(a: set<nat>, b: set<nat>)
    requires a <= b
    ensures |a| <= |b|
  {
    assert b == a + (b - a);
  }

  lemma CleanedKeepsAgent(s: Setup, a: Agent, now: int)
    requires AgentInv(s, a)
    ensures AgentInv(s, Cleaned(a, now))
  {
    FewerPairings(a.pairings, Cleaned(a, now).pairings);
  }

  // ------------------------------------------------------------------ what is fresh

  lemma JustifiedAt(s: Setup, log: seq<Event>, e: Event) returns (i: nat)
    requires IsTraced(s, log) && e in log
    ensures i < |log| && log[i] == e && IsJustified(s, log[..i], e)
  {
    i :| 0 <= i < |log| && log[i] == e;
  }

  lemma {:induction false} NoCodesBeforeOpening(s: Setup, log: seq<Event>, p: nat)
    requires IsTraced(s, log) && !IsOpened(log, p)
    ensures WrongCodes(log, p) == 0
    decreases |log|
  {
    if log != [] {
      var front := log[..|log| - 1];
      forall i | 0 <= i < |front| ensures IsJustified(s, front[..i], front[i]) {
        assert front[..i] == log[..i];
      }
      NoCodesBeforeOpening(s, front, p);
      assert IsJustified(s, front, log[|log| - 1]);
    }
  }

  lemma AcceptedWasOpened(s: Setup, log: seq<Event>, p: nat)
    requires IsTraced(s, log) && IsAccepted(log, p)
    ensures IsOpened(log, p)
  {}

  lemma UnopenedPairing(s: Setup, log: seq<Event>, p: nat)
    requires IsTraced(s, log) && !IsOpened(log, p)
    ensures !IsAccepted(log, p) && WrongCodes(log, p) == 0
  {
    NoCodesBeforeOpening(s, log, p);
    if IsAccepted(log, p) { AcceptedWasOpened(s, log, p); }
  }

  lemma UnopenedChallenge(s: Setup, log: seq<Event>, c: nat)
    requires IsTraced(s, log) && !IsAsked(log, c)
    ensures !IsSpent(log, c)
  {}

  // ---------------------------------------------------------------------- the steps

  /** Noting an event and suspending the call that it is about. */
  lemma NoteAndSuspend(s: Setup, a: Agent, e: Event, call: nat, c: Call)
    requires AgentInv(s, a) && IsJustified(s, a.log, e) && CallInv(a.log + [e], c)
    requires e.PairingAccepted? ==> e.pairing !in a.pairings
    requires e.ChallengeSpent? ==> e.challenge !in a.challenges
    requires !e.WrongCode? && !e.SessionIssued?
    requires SourceOf(c).Some? ==> forall k :: k in a.calls && k != call ==> SourceOf(a.calls[k]) != SourceOf(c)
    ensures AgentInv(s, Noted(Suspended(a, call, c), e))
  {
    NotedKeepsAgent(s, a, e);
    SuspendedKeepsAgent(s, Noted(a, e), call, c);
    assert Noted(Suspended(a, call, c), e) == Suspended(Noted(a, e), call, c);
  }

  lemma OpenedPairing(s: Setup, log: seq<Event>, pairing: nat, p: Pairing)
    requires IsTraced(s, log) && !IsOpened(log, pairing) && p.attempts == 0
    ensures PairingInv(log + [PairingOpened(pairing, p)], pairing, p)
  {
    UnopenedPairing(s, log, pairing);
    AcceptedGrows(log, PairingOpened(pairing, p), pairing);
    WrongCodesGrow(log, PairingOpened(pairing, p), pairing);
  }

  lemma AddPairing(s: Setup, a: Agent, pairing: nat, p: Pairing)
    requires AgentInv(s, a) && PairingInv(a.log, pairing, p) && (pairing in a.pairings || |a.pairings| < MAX_PAIRINGS)
    ensures AgentInv(s, a.(pairings := a.pairings[pairing := p]))
  {}

  lemma DropPairing(s: Setup, a: Agent, pairing: nat)
    requires AgentInv(s, a)
    ensures AgentInv(s, a.(pairings := a.pairings - {pairing}))
  {}

  lemma OpenedKeepsAgent(s: Setup, a: Agent, call: nat, pairing: nat, p: Pairing)
    requires AgentInv(s, a) && !IsOpened(a.log, pairing) && |a.pairings| < MAX_PAIRINGS
    requires p.attempts == 0 && p.expiresAt == p.createdAt + PAIRING_TTL_MS
    ensures AgentInv(s, Opened(a, call, pairing, p))
  {
    EndedKeepsAgent(s, a, call);
    NotedKeepsAgent(s, Ended(a, call), PairingOpened(pairing, p));
    OpenedPairing(s, a.log, pairing, p);
    AddPairing(s, Noted(Ended(a, call), PairingOpened(pairing, p)), pairing, p);
  }

  lemma OpenPairingKeepsAgent(s: Setup, a: Agent, call: nat, duplicate: Option<nat>, pairing: nat, nonce: nat, code: string, now: int)
    requires AgentInv(s, a) && IsPossible(a, ResumeCreatePairing(call, duplicate, pairing, nonce, code, now))
    ensures AgentInv(s, OpenPairing(a, call, duplicate, pairing, nonce, code, now))
  {
    var c, kept := a.calls[call], WithoutDuplicate(a, duplicate);
    if duplicate.Some? { DropPairing(s, a, duplicate.value); }
    EndedKeepsAgent(s, a, call);
    EndedKeepsAgent(s, kept, call);
    if |kept.pairings| < MAX_PAIRINGS {
      OpenedKeepsAgent(
        s, kept, call, pairing, Pairing(c.client, c.origin, c.purpose.key, nonce, code, 0, now, now + PAIRING_TTL_MS));
    }
  }

  lemma Reinserted(pairings: map<nat, Pairing>, pairing: nat, p: Pairing)
    requires pairing in pairings
    ensures (pairings - {pairing})[pairing := p] == pairings[pairing := p]
    ensures |pairings - {pairing}| < |pairings|
  {}

  lemma RecountedPairing(log: seq<Event>, pairing: nat, p: Pairing)
    requires PairingInv(log, pairing, p) && p.attempts + 1 < MAX_CODE_ATTEMPTS
    ensures PairingInv(log + [WrongCode(pairing)], pairing, Counted(p))
  {}

  lemma WrongCodeKeepsAgent(s: Setup, a: Agent, pairing: nat)
    requires AgentInv(s, a) && pairing in a.pairings
    ensures AgentInv(s, RejectCode(a, pairing))
  {
    var p := a.pairings[pairing];
    var without := a.(pairings := a.pairings - {pairing});
    assert PairingInv(a.log, pairing, p);
    DropPairing(s, a, pairing);
    NotedKeepsAgent(s, without, WrongCode(pairing));
    if p.attempts + 1 < MAX_CODE_ATTEMPTS {
      RecountedPairing(a.log, pairing, p);
      Reinserted(a.pairings, pairing, Counted(p));
      AddPairing(s, Noted(without, WrongCode(pairing)), pairing, Counted(p));
    }
  }

  lemma AcceptedCall(log: seq<Event>, pairing: nat, entry: Client, typed: string, signature: string, at: int)
    requires !IsIssued(log, FromPairing(pairing))
    ensures CallInv(log + [PairingAccepted(pairing, entry, typed, signature, at)], Registering(pairing, entry, None))
  {}

  lemma QueueMore(s: Setup, a: Agent, m: Mutation)
    requires AgentInv(s, a)
    requires m.RegisterEntry? ==> IsAcceptedFor(a.log, m.pairing, m.entry)
    ensures AgentInv(s, a.(queue := a.queue + [m]))
  {}

  lemma AcceptKeepsAgent(
    s: Setup, a: Agent, call: nat, pairing: nat, entry: Client, typed: string, signature: string, now: int)
    requires AgentInv(s, a) && call !in a.calls && pairing in a.pairings
    requires IsGoodPairing(s, pairing, a.pairings[pairing], entry, typed, signature, now)
    ensures AgentInv(s, AcceptPairing(a, call, pairing, entry, typed, signature, now))
  {
    var e := PairingAccepted(pairing, entry, typed, signature, now);
    var without, registering := a.(pairings := a.pairings - {pairing}), Registering(pairing, entry, None);
    DropPairing(s, a, pairing);
    assert PairingInv(a.log, pairing, a.pairings[pairing]);
    assert IsGoodPairing(s, pairing, a.pairings[pairing].(attempts := 0), entry, typed, signature, now);
    UndecidedIsNotInHand(s, a, pairing);
    AcceptedCall(a.log, pairing, entry, typed, signature, now);
    NoteAndSuspend(s, without, e, call, registering);
    assert e in Noted(Suspended(without, call, registering), e).log;
    QueueMore(s, Noted(Suspended(without, call, registering), e), RegisterEntry(call, pairing, entry, now));
  }

  lemma BadProofKeepsAgent(s: Setup, a: Agent, pairing: nat)
    requires AgentInv(s, a) && pairing in a.pairings
    ensures AgentInv(s, a.(pairings := a.pairings[pairing := Counted(a.pairings[pairing])]))
  {
    assert PairingInv(a.log, pairing, a.pairings[pairing]);
    AddPairing(s, a, pairing, Counted(a.pairings[pairing]));
  }

  lemma DecidePairingKeepsAgent(s: Setup, a: Agent, call: nat, pairing: nat, typed: string, signature: string, now: int)
    requires AgentInv(s, a) && call !in a.calls && (pairing in a.pairings ==> now < a.pairings[pairing].expiresAt)
    ensures AgentInv(s, DecidePairing(s, a, call, pairing, typed, signature, now))
  {
    if pairing in a.pairings {
      var p := a.pairings[pairing];
      if Normalize(typed) != p.code {
        WrongCodeKeepsAgent(s, a, pairing);
      } else if s.verify(p.key, PairingMessage(pairing, p.nonce, p.origin, s.instance, p.client), signature) {
        AcceptKeepsAgent(s, a, call, pairing, NewEntry(s, p, now), typed, signature, now);
      } else {
        BadProofKeepsAgent(s, a, pairing);
      }
    }
  }

  /** Nothing has been minted from, or begun with, a pairing that is still pending. */
  lemma UndecidedIsNotInHand(s: Setup, a: Agent, pairing: nat)
    requires IsTraced(s, a.log) && CallsInv(a.log, a.calls) && !IsAccepted(a.log, pairing)
    ensures !IsIssued(a.log, FromPairing(pairing))
    ensures forall k :: k in a.calls ==> SourceOf(a.calls[k]) != Some(FromPairing(pairing))
  {}

  lemma UnspentIsNotInHand(s: Setup, a: Agent, challenge: nat)
    requires IsTraced(s, a.log) && CallsInv(a.log, a.calls) && !IsSpent(a.log, challenge)
    ensures !IsIssued(a.log, FromChallenge(challenge))
    ensures forall k :: k in a.calls ==> SourceOf(a.calls[k]) != Some(FromChallenge(challenge))
  {}

  lemma SpentCall(log: seq<Event>, challenge: nat, c: Challenge, signature: string, now: int)
    requires IsAskedAs(log, challenge, c) && !IsIssued(log, FromChallenge(challenge))
    ensures CallInv(log + [ChallengeSpent(challenge, now)], Looking(ToProve(challenge, c.nonce, signature), c.client, c.origin, now, None))
  {
    var at :| ChallengeOpened(challenge, c, at) in log;
    var after := log + [ChallengeSpent(challenge, now)];
    assert ChallengeOpened(challenge, c, at) in after && ChallengeSpent(challenge, now) in after;
  }

  lemma SpendKeepsAgent(s: Setup, a: Agent, call: nat, challenge: nat, signature: string, now: int)
    requires AgentInv(s, a) && call !in a.calls && (challenge in a.challenges ==> now < a.challenges[challenge].expiresAt)
    ensures AgentInv(s, SpendChallenge(a, call, challenge, signature, now))
  {
    if challenge in a.challenges {
      var c := a.challenges[challenge];
      var without := a.(challenges := a.challenges - {challenge});
      UnspentIsNotInHand(s, a, challenge);
      SpentCall(a.log, challenge, c, signature, now);
      NoteAndSuspend(
        s, without, ChallengeSpent(challenge, now), call,
        Looking(ToProve(challenge, c.nonce, signature), c.client, c.origin, now, None));
    }
  }

  lemma ProvedCall(log: seq<Event>, challenge: nat, entry: Client, signature: string)
    requires IsSpent(log, challenge) && !IsIssued(log, FromChallenge(challenge))
    ensures CallInv(
              log + [SessionProved(challenge, entry, signature)], Touching(challenge, entry.id, entry.origin, false))
  {
    assert SessionProved(challenge, entry, signature) in log + [SessionProved(challenge, entry, signature)];
  }

  /** What the code verified is the answer to the challenge as it was asked. */
  lemma VerifiedIsAnswered(s: Setup, log: seq<Event>, c: Call, entry: Client)
    requires c.Looking? && c.purpose.ToProve? && LookingInv(log, c) && IsEntry(entry, c.client, c.origin)
    requires s.verify(
               entry.key, SessionMessage(c.purpose.challenge, c.purpose.nonce, c.origin, s.instance, c.client), c.purpose.signature)
    ensures IsAnswered(s, log, c.purpose.challenge, entry, c.purpose.signature)
  {}

  lemma ProveKeepsAgent(s: Setup, a: Agent, call: nat, now: int)
    requires AgentInv(s, a) && IsPossible(a, ResumeCompleteSession(call, now))
    ensures AgentInv(s, ProveSession(s, a, call, now))
  {
    EndedKeepsAgent(s, a, call);
    var c := a.calls[call];
    assert CallInv(a.log, c);
    var message := SessionMessage(c.purpose.challenge, c.purpose.nonce, c.origin, s.instance, c.client);
    if c.seen.value.Some? && s.verify(c.seen.value.value.key, message, c.purpose.signature) {
      var challenge, entry, signature := c.purpose.challenge, c.seen.value.value, c.purpose.signature;
      VerifiedIsAnswered(s, a.log, c, entry);
      ProvedCall(a.log, challenge, entry, signature);
      QueueMore(s, a, TouchEntry(call, entry.id, entry.origin, now));
      NoteAndSuspend(
        s, a.(queue := a.queue + [TouchEntry(call, entry.id, entry.origin, now)]),
        SessionProved(challenge, entry, signature), call, Touching(challenge, entry.id, entry.origin, false));
    }
  }

  lemma IssueKeepsAgent(
    s: Setup, a: Agent, call: nat, session: nat, token: nat, source: Source, client: string, origin: string, now: int)
    requires AgentInv(s, a) && call in a.calls && SourceOf(a.calls[call]) == Some(source) && !IsMinted(a.log, session)
    requires match source
             case FromPairing(pairing) => IsPaired(a.log, pairing, client, origin)
             case FromChallenge(challenge) => IsProved(a.log, challenge, client, origin)
    ensures AgentInv(s, Issue(a, call, session, token, source, client, origin, now))
  {
    var e := SessionIssued(session, token, source, client, origin, now, now + SESSION_TTL_MS);
    EndedKeepsAgent(s, a, call);
    assert CallInv(a.log, a.calls[call]);
    NotedKeepsAgent(s, Ended(a, call), e);
    var noted := Noted(Ended(a, call), e);
    assert e in noted.log;
    AddSession(s, noted, session, Session(token, client, origin, now + SESSION_TTL_MS));
  }

  lemma AddSession(s: Setup, a: Agent, session: nat, minted: Session)
    requires AgentInv(s, a) && IsIssuedTo(a.log, session, minted)
    ensures AgentInv(s, a.(sessions := a.sessions[session := minted]))
  {}

  lemma LookedCall(log: seq<Event>, c: Call, found: Option<Client>)
    requires c.Looking? && CallInv(log, c) && !c.purpose.ToAuthorize?
    requires found.Some? ==> IsEntry(found.value, c.client, c.origin) && IsKnown(log, found.value)
    ensures CallInv(log, c.(seen := Some(found)))
  {}

  lemma CheckedCall(log: seq<Event>, c: Call, entry: Client)
    requires c.Looking? && CallInv(log, c) && c.purpose.ToAuthorize?
    requires IsEntry(entry, c.client, c.origin) && IsKnown(log, entry)
    ensures CallInv(log + [ClientChecked(c.purpose.session, entry, c.at)], c.(seen := Some(Some(entry))))
  {}

  lemma LookKeepsAgent(s: Setup, a: Agent, call: nat)
    requires AgentInv(s, a) && IsPossible(a, ReadRegistry(call))
    ensures AgentInv(s, Look(a, call))
  {
    var c := a.calls[call];
    assert CallInv(a.log, c);
    var found := FindActive(a.clients, c.client, c.origin, c.at);
    if !c.purpose.ToAuthorize? {
      LookedCall(a.log, c, found);
      SuspendedKeepsAgent(s, a, call, c.(seen := Some(found)));
    } else if found.Some? {
      CheckedCall(a.log, c, found.value);
      NoteAndSuspend(s, a, ClientChecked(c.purpose.session, found.value, c.at), call, c.(seen := Some(found)));
    } else {
      SuspendedKeepsAgent(s, a, call, c.(seen := Some(found)));
    }
  }

  lemma AuthorizeKeepsAgent(s: Setup, a: Agent, call: nat)
    requires AgentInv(s, a) && IsPossible(a, ResumeAuthorize(call))
    ensures AgentInv(s, Authorize(a, call))
  {
    var c := a.calls[call];
    assert CallInv(a.log, c);
    EndedKeepsAgent(s, a, call);
    if c.seen.value.Some? {
      NotedKeepsAgent(s, Ended(a, call), Authorized(c.purpose.session, c.purpose.token, c.client, c.origin, c.at, c.purpose.expiresAt));
    } else {
      EndedKeepsAgent(s, a.(sessions := a.sessions - {c.purpose.session}), call);
    }
  }

  lemma SameGrantIsKnown(log: seq<Event>, a: Client, b: Client)
    requires IsKnown(log, a) && IsSameGrant(a, b)
    ensures IsKnown(log, b)
  {
    var p, registered :| Registered(p, registered) in log && IsSameGrant(registered, a);
    assert IsSameGrant(registered, b);
  }

  /** Changes of the registry that keep who is in it. */
  lemma SameEntriesKeepRegistry(log: seq<Event>, before: seq<Client>, after: seq<Client>, queue: seq<Mutation>)
    requires RegistryInv(log, before, queue) && |after| == |before|
    requires forall k :: 0 <= k < |before| ==> IsSameGrant(before[k], after[k])
    ensures RegistryInv(log, after, queue)
  {
    forall k | 0 <= k < |after| ensures IsKnown(log, after[k]) {
      assert before[k] in before;
      SameGrantIsKnown(log, before[k], after[k]);
    }
  }

  lemma QueueShrinks(s: Setup, a: Agent)
    requires AgentInv(s, a) && a.queue != []
    ensures AgentInv(s, a.(queue := a.queue[1..]))
  {}

  lemma RegistryTakes(log: seq<Event>, clients: seq<Client>, queue: seq<Mutation>, entry: Client, now: int)
    requires RegistryInv(log, clients, queue) && IsKnown(log, entry) && Register(clients, entry, now).Some?
    ensures RegistryInv(log, Register(clients, entry, now).value, queue)
  {
    RegisterKeepsUnique(clients, entry, now);
  }

  lemma RegisterKeepsAgent(s: Setup, a: Agent, pairing: nat, entry: Client, now: int)
    requires AgentInv(s, a) && IsAcceptedFor(a.log, pairing, entry)
    requires Register(a.clients, entry, now).Some?
    ensures var e := Registered(pairing, entry);
            AgentInv(s, Noted(a.(clients := Register(a.clients, entry, now).value), e))
  {
    var e := Registered(pairing, entry);
    var noted := Noted(a, e);
    NotedKeepsAgent(s, a, e);
    assert e in noted.log && IsSameGrant(entry, entry);
    RegistryTakes(noted.log, a.clients, a.queue, entry, now);
  }

  lemma SettleKeepsAgent(s: Setup, a: Agent, call: nat, pairing: nat, entry: Client, ok: bool)
    requires AgentInv(s, a) && (ok ==> IsPaired(a.log, pairing, entry.id, entry.origin))
    ensures AgentInv(s, Settle(a, call, Registering(pairing, entry, None), Registering(pairing, entry, Some(ok))))
  {}

  lemma RunRegister(s: Setup, a: Agent, call: nat, pairing: nat, entry: Client, now: int)
    requires AgentInv(s, a) && IsAcceptedFor(a.log, pairing, entry)
    requires Register(a.clients, entry, now).Some?
    ensures var registered := a.(clients := Register(a.clients, entry, now).value);
            AgentInv(s, Noted(
              Settle(registered, call, Registering(pairing, entry, None), Registering(pairing, entry, Some(true))),
              Registered(pairing, entry)))
  {
    RegisterKeepsAgent(s, a, pairing, entry, now);
    var registered := a.(clients := Register(a.clients, entry, now).value);
    var e := Registered(pairing, entry);
    assert e in Noted(registered, e).log;
    SettleKeepsAgent(s, Noted(registered, e), call, pairing, entry, true);
  }

  lemma RunTouch(s: Setup, a: Agent, call: nat, client: string, origin: string, now: int)
    requires AgentInv(s, a)
    ensures var touched := a.(clients := Touch(a.clients, client, origin, now));
            AgentInv(s, SettleTouch(touched, call))
  {
    var touched := a.(clients := Touch(a.clients, client, origin, now));
    SameEntriesKeepRegistry(a.log, a.clients, touched.clients, a.queue);
    if call in a.calls && a.calls[call].Touching? {
      assert CallInv(a.log, a.calls[call]);
      SuspendedKeepsAgent(s, touched, call, a.calls[call].(settled := true));
    }
  }

  lemma MutateKeepsAgent(s: Setup, a: Agent, stored: bool)
    requires AgentInv(s, a) && a.queue != []
    ensures AgentInv(s, Mutate(a, stored))
  {
    QueueShrinks(s, a);
    var rest := a.(queue := a.queue[1..]);
    match a.queue[0]
    case RegisterEntry(call, pairing, entry, now) =>
      if stored && Register(a.clients, entry, now).Some? {
        RunRegister(s, rest, call, pairing, entry, now);
      } else {
        SettleKeepsAgent(s, rest, call, pairing, entry, false);
      }
    case TouchEntry(call, client, origin, now) =>
      RunTouch(s, rest, call, client, origin, now);
      EndedKeepsAgent(s, rest, call);
    case RevokeEntry(id) => SameEntriesKeepRegistry(a.log, a.clients, Revoke(a.clients, id), rest.queue);
  }

  /** The steps that begin a call. */
  lemma BeginKeepsAgent(s: Setup, a: Agent, step: AuthStep)
    requires AgentInv(s, a) && IsPossible(a, step)
    requires step.BeginCreatePairing? || step.BeginCompletePairing? || step.BeginCreateChallenge? || step.BeginCompleteSession?
          || step.BeginAuthorize?
    ensures AgentInv(s, AfterStep(s, a, step))
  {
    var cleaned := Cleaned(a, step.now);
    CleanedKeepsAgent(s, a, step.now);
    match step
    case BeginCreatePairing(call, client, origin, key, valid, now) =>
      SuspendedKeepsAgent(s, cleaned, call, Looking(ToPair(key), client, origin, now, None));
    case BeginCompletePairing(call, pairing, typed, signature, now) =>
      DecidePairingKeepsAgent(s, cleaned, call, pairing, typed, signature, now);
    case BeginCreateChallenge(call, client, origin, now) =>
      SuspendedKeepsAgent(s, cleaned, call, Looking(ToChallenge, client, origin, now, None));
    case BeginCompleteSession(call, challenge, signature, now) =>
      SpendKeepsAgent(s, cleaned, call, challenge, signature, now);
    case BeginAuthorize(call, token, origin, found, now) =>
      if found.Some? {
        var session := cleaned.sessions[found.value];
        SuspendedKeepsAgent(
          s, cleaned, call, Looking(ToAuthorize(found.value, token, session.expiresAt), session.client, origin, now, None));
      }
  }

  lemma AskedChallenge(s: Setup, log: seq<Event>, challenge: nat, asked: Challenge, now: int)
    requires IsTraced(s, log) && !IsAsked(log, challenge)
    ensures var after := log + [ChallengeOpened(challenge, asked, now)];
            IsAskedAs(after, challenge, asked) && !IsSpent(after, challenge)
  {
    var e := ChallengeOpened(challenge, asked, now);
    UnopenedChallenge(s, log, challenge);
    assert e in log + [e];
  }

  lemma AskedKeepsAgent(s: Setup, a: Agent, call: nat, challenge: nat, asked: Challenge, now: int)
    requires AgentInv(s, a) && !IsAsked(a.log, challenge) && asked.expiresAt == now + CHALLENGE_TTL_MS
    ensures AgentInv(s, Asked(a, call, challenge, asked, now))
  {
    var e := ChallengeOpened(challenge, asked, now);
    AskedChallenge(s, a.log, challenge, asked, now);
    NotedKeepsAgent(s, a, e);
    AddChallenge(s, Noted(a, e), challenge, asked);
    EndedKeepsAgent(s, Noted(a, e).(challenges := a.challenges[challenge := asked]), call);
  }

  lemma AddChallenge(s: Setup, a: Agent, challenge: nat, asked: Challenge)
    requires AgentInv(s, a) && IsAskedAs(a.log, challenge, asked) && !IsSpent(a.log, challenge)
    ensures AgentInv(s, a.(challenges := a.challenges[challenge := asked]))
  {}

  lemma RegisteredResumes(s: Setup, a: Agent, call: nat, session: nat, token: nat, now: int)
    requires AgentInv(s, a) && IsPossible(a, ResumeRegister(call, session, token, now))
    ensures AgentInv(s, AfterStep(s, a, ResumeRegister(call, session, token, now)))
  {
    var c := a.calls[call];
    assert CallInv(a.log, c);
    EndedKeepsAgent(s, a, call);
    if c.outcome.value {
      IssueKeepsAgent(s, a, call, session, token, FromPairing(c.pairing), c.entry.id, c.entry.origin, now);
    }
  }

  lemma TouchedResumes(s: Setup, a: Agent, call: nat, session: nat, token: nat, now: int)
    requires AgentInv(s, a) && IsPossible(a, ResumeTouch(call, session, token, now))
    ensures AgentInv(s, AfterStep(s, a, ResumeTouch(call, session, token, now)))
  {
    var c := a.calls[call];
    assert CallInv(a.log, c);
    IssueKeepsAgent(s, a, call, session, token, FromChallenge(c.challenge), c.client, c.origin, now);
  }

  lemma OpenChallengeKeepsAgent(s: Setup, a: Agent, call: nat, challenge: nat, nonce: nat, now: int)
    requires AgentInv(s, a) && IsPossible(a, ResumeCreateChallenge(call, challenge, nonce, now))
    ensures AgentInv(s, OpenChallenge(a, call, challenge, nonce, now))
  {
    var c := a.calls[call];
    EndedKeepsAgent(s, a, call);
    if c.seen.value.Some? {
      AskedKeepsAgent(s, a, call, challenge, Challenge(c.client, c.origin, nonce, now + CHALLENGE_TTL_MS), now);
    }
  }

  /** Every step of every call, in any interleaving, keeps the invariant. */
  lemma StepKeepsAgent(s: Setup, a: Agent, step: AuthStep)
    requires AgentInv(s, a) && IsPossible(a, step)
    ensures AgentInv(s, AfterStep(s, a, step))
  {
    match step
    case ResumeCreatePairing(call, duplicate, pairing, nonce, code, now) =>
      OpenPairingKeepsAgent(s, a, call, duplicate, pairing, nonce, code, now);
    case ResumeCompleteSession(call, now) => ProveKeepsAgent(s, a, call, now);
    case ResumeAuthorize(call) => AuthorizeKeepsAgent(s, a, call);
    case ReadRegistry(call) => LookKeepsAgent(s, a, call);
    case RunMutation(stored) => MutateKeepsAgent(s, a, stored);
    case AskRevoke(id) =>
    case ResumeRegister(call, session, token, now) => RegisteredResumes(s, a, call, session, token, now);
    case ResumeCreateChallenge(call, challenge, nonce, now) => OpenChallengeKeepsAgent(s, a, call, challenge, nonce, now);
    case ResumeTouch(call, session, token, now) => TouchedResumes(s, a, call, session, token, now);
    case _ => BeginKeepsAgent(s, a, step);
  }

  // ------------------------------------------------------------------------- runs

  ghost predicate IsRun(s: Setup, a: Agent, steps: seq<AuthStep>)
    decreases |steps|
  {
    steps != [] ==> IsPossible(a, steps[0]) && IsRun(s, AfterStep(s, a, steps[0]), steps[1..])
  }

  ghost function RunAgent(s: Setup, a: Agent, steps: seq<AuthStep>): Agent
    requires IsRun(s, a, steps)
    decreases |steps|
  {
    if steps == [] then a else RunAgent(s, AfterStep(s, a, steps[0]), steps[1..])
  }

  function FreshAgent(): Agent {
    Agent(map[], map[], map[], [], [], map[], [])
  }

  lemma {:induction false} RunKeepsAgent(s: Setup, a: Agent, steps: seq<AuthStep>)
    requires AgentInv(s, a) && IsRun(s, a, steps)
    ensures AgentInv(s, RunAgent(s, a, steps))
    decreases |steps|
  {
    if steps != [] {
      StepKeepsAgent(s, a, steps[0]);
      RunKeepsAgent(s, AfterStep(s, a, steps[0]), steps[1..]);
    }
  }

  // ------------------------------------------------------------------- main results

  // Times are in milliseconds, written out here so that the results do not move with the
  // constants of the protocol.

  /** The whole story of a completed pairing: opened with a key, a nonce and a code; accepted
      within two minutes, on the right code and a proof under that key; registered for that
      client, origin and key, and trusted from then on for as many days as configured. */
  ghost predicate IsPairedBy(s: Setup, log: seq<Event>, pairing: nat, entry: Client) {
    exists opening, typed, signature, at ::
      && PairingOpened(pairing, opening) in log && PairingAccepted(pairing, entry, typed, signature, at) in log
      && Registered(pairing, entry) in log
      && opening.expiresAt == opening.createdAt + 120_000
      && IsGoodPairing(s, pairing, opening, entry, typed, signature, at)
  }

  /** The trust an entry stands for comes from a completed pairing. */
  ghost predicate IsTrusted(s: Setup, log: seq<Event>, entry: Client) {
    exists pairing, registered :: IsPairedBy(s, log, pairing, registered) && IsSameGrant(registered, entry)
  }

  /** The whole story of an answered challenge: asked with a nonce; spent within thirty
      seconds; answered under the key of the entry, for its client and origin. */
  ghost predicate IsProvedBy(s: Setup, log: seq<Event>, challenge: nat, entry: Client) {
    exists asked, since, at, signature ::
      && ChallengeOpened(challenge, asked, since) in log && ChallengeSpent(challenge, at) in log
      && SessionProved(challenge, entry, signature) in log
      && at < asked.expiresAt == since + 30_000
      && IsGoodAnswer(s, challenge, asked, entry, signature)
  }

  /** What a session was minted from. */
  ghost predicate IsEarned(s: Setup, log: seq<Event>, source: Source, client: string, origin: string) {
    match source
    case FromPairing(pairing) => exists entry :: IsPairedBy(s, log, pairing, entry) && IsEntry(entry, client, origin)
    case FromChallenge(challenge) =>
      exists entry :: IsProvedBy(s, log, challenge, entry) && IsTrusted(s, log, entry) && IsEntry(entry, client, origin)
  }

  lemma AcceptedIsOpened(s: Setup, log: seq<Event>, pairing: nat, entry: Client, typed: string, signature: string, at: int)
    requires IsTraced(s, log) && PairingAccepted(pairing, entry, typed, signature, at) in log && Registered(pairing, entry) in log
    ensures IsPairedBy(s, log, pairing, entry)
  {
    var i := JustifiedAt(s, log, PairingAccepted(pairing, entry, typed, signature, at));
    var opening :| PairingOpened(pairing, opening) in log[..i] && IsGoodPairing(s, pairing, opening, entry, typed, signature, at);
    var k := JustifiedAt(s, log, PairingOpened(pairing, opening));
  }

  lemma RegisteredIsPaired(s: Setup, log: seq<Event>, pairing: nat, entry: Client)
    requires IsTraced(s, log) && Registered(pairing, entry) in log
    ensures IsPairedBy(s, log, pairing, entry)
  {
    var i := JustifiedAt(s, log, Registered(pairing, entry));
    var typed, signature, at :| PairingAccepted(pairing, entry, typed, signature, at) in log[..i];
    AcceptedIsOpened(s, log, pairing, entry, typed, signature, at);
  }

  lemma KnownIsTrusted(s: Setup, log: seq<Event>, entry: Client)
    requires IsTraced(s, log) && IsKnown(log, entry)
    ensures IsTrusted(s, log, entry)
  {
    var pairing, registered :| Registered(pairing, registered) in log && IsSameGrant(registered, entry);
    RegisteredIsPaired(s, log, pairing, registered);
  }

  lemma KnownStays(log: seq<Event>, i: nat, entry: Client)
    requires i <= |log| && IsKnown(log[..i], entry)
    ensures IsKnown(log, entry)
  {}

  /** A challenge has one opening. */
  lemma AskedOnce(s: Setup, log: seq<Event>, challenge: nat, a: Challenge, at: int, b: Challenge, since: int)
    requires IsTraced(s, log) && ChallengeOpened(challenge, a, at) in log && ChallengeOpened(challenge, b, since) in log
    ensures a == b && at == since
  {
    var i := JustifiedAt(s, log, ChallengeOpened(challenge, a, at));
    var j := JustifiedAt(s, log, ChallengeOpened(challenge, b, since));
  }

  lemma SpentInTime(s: Setup, log: seq<Event>, challenge: nat, asked: Challenge, since: int, at: int)
    requires IsTraced(s, log) && ChallengeOpened(challenge, asked, since) in log && ChallengeSpent(challenge, at) in log
    ensures at < asked.expiresAt == since + CHALLENGE_TTL_MS
  {
    var k := JustifiedAt(s, log, ChallengeOpened(challenge, asked, since));
    var j := JustifiedAt(s, log, ChallengeSpent(challenge, at));
    var same, from :| ChallengeOpened(challenge, same, from) in log[..j] && at < same.expiresAt;
    AskedOnce(s, log, challenge, asked, since, same, from);
  }

  lemma ProofIsAnswered(s: Setup, log: seq<Event>, challenge: nat, entry: Client, signature: string)
    requires IsTraced(s, log) && SessionProved(challenge, entry, signature) in log
    ensures IsProvedBy(s, log, challenge, entry) && IsTrusted(s, log, entry)
  {
    var i := JustifiedAt(s, log, SessionProved(challenge, entry, signature));
    var asked, since :| ChallengeOpened(challenge, asked, since) in log[..i] && IsGoodAnswer(s, challenge, asked, entry, signature);
    var at :| ChallengeSpent(challenge, at) in log[..i];
    SpentInTime(s, log, challenge, asked, since, at);
    KnownStays(log, i, entry);
    KnownIsTrusted(s, log, entry);
  }

  lemma IssuedIsEarned(
    s: Setup, log: seq<Event>, session: nat, token: nat, source: Source, client: string, origin: string, at: int, expiresAt: int)
    requires IsTraced(s, log) && SessionIssued(session, token, source, client, origin, at, expiresAt) in log
    ensures expiresAt == at + SESSION_TTL_MS && IsEarned(s, log, source, client, origin)
  {
    var i := JustifiedAt(s, log, SessionIssued(session, token, source, client, origin, at, expiresAt));
    match source
    case FromPairing(pairing) =>
      var entry :| Registered(pairing, entry) in log[..i] && IsEntry(entry, client, origin);
      RegisteredIsPaired(s, log, pairing, entry);
    case FromChallenge(challenge) =>
      var entry, signature :| SessionProved(challenge, entry, signature) in log[..i] && IsEntry(entry, client, origin);
      ProofIsAnswered(s, log, challenge, entry, signature);
  }

  /** Whenever a call was authorized: the token it presented is that of a session of its client
      and origin, minted less than fifteen minutes before the call's clock, from a proof that
      was verified under a key of this client and origin over the nonce given for it; that key
      came with a pairing whose code was typed in time; and the registry, read for this call,
      held the client neither revoked nor past the trust period of such a pairing. */
  lemma AuthorizationIsEarned(
    s: Setup, steps: seq<AuthStep>, session: nat, token: nat, client: string, origin: string, at: int, expiresAt: int)
    requires IsRun(s, FreshAgent(), steps)
    requires Authorized(session, token, client, origin, at, expiresAt) in RunAgent(s, FreshAgent(), steps).log
    ensures var log := RunAgent(s, FreshAgent(), steps).log;
            && (exists source, minted ::
                  && SessionIssued(session, token, source, client, origin, minted, expiresAt) in log
                  && at < expiresAt == minted + 900_000
                  && IsEarned(s, log, source, client, origin))
            && (exists entry ::
                  ClientChecked(session, entry, at) in log && IsEntry(entry, client, origin) && IsActive(entry, at)
                  && IsTrusted(s, log, entry))
  {
    RunKeepsAgent(s, FreshAgent(), steps);
    var log := RunAgent(s, FreshAgent(), steps).log;
    var i := JustifiedAt(s, log, Authorized(session, token, client, origin, at, expiresAt));
    var source, minted :| SessionIssued(session, token, source, client, origin, minted, expiresAt) in log[..i];
    IssuedIsEarned(s, log, session, token, source, client, origin, minted, expiresAt);
    var entry :| ClientChecked(session, entry, at) in log[..i] && IsEntry(entry, client, origin);
    var j := JustifiedAt(s, log, ClientChecked(session, entry, at));
    KnownStays(log, j, entry);
    KnownIsTrusted(s, log, entry);
  }

  ghost predicate IsDecisive(e: Event, f: Event) {
    || (e.PairingAccepted? && f.PairingAccepted? && e.pairing == f.pairing)
    || (e.ChallengeSpent? && f.ChallengeSpent? && e.challenge == f.challenge)
    || (e.SessionIssued? && f.SessionIssued? && e.source == f.source)
  }

  /** Over every run: a pairing completes at most once, a challenge is spent at most once,
      each yields at most one session, at most five pairings are pending, and at most five
      wrong codes are ever tried on one. */
  lemma EverythingIsUsedOnce(s: Setup, steps: seq<AuthStep>)
    requires IsRun(s, FreshAgent(), steps)
    ensures var a := RunAgent(s, FreshAgent(), steps);
            && |a.pairings| <= 5
            && (forall p: nat :: WrongCodes(a.log, p) <= 5)
            && (forall i, j :: 0 <= i < j < |a.log| ==> !IsDecisive(a.log[i], a.log[j]))
  {
    RunKeepsAgent(s, FreshAgent(), steps);
    NothingIsDecidedTwice(s, RunAgent(s, FreshAgent(), steps).log);
  }

  lemma NothingIsDecidedTwice(s: Setup, log: seq<Event>)
    requires IsTraced(s, log)
    ensures forall i, j :: 0 <= i < j < |log| ==> !IsDecisive(log[i], log[j])
  {}
}
