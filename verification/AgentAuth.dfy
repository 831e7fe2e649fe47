/** `BrowserAgentAuth` with its client registry: pairing, challenges, sessions and
    authorization, split into the synchronous stretches between awaits. */
module AgentAuth {
  import opened Schema
  import opened TrustedClients
  import opened PairingCodes

  const PAIRING_TTL_MS: int := 2 * 60 * 1000
  const CHALLENGE_TTL_MS: int := 30 * 1000
  const SESSION_TTL_MS: int := 15 * 60 * 1000
  const PAIRING_COOLDOWN_MS: int := 10 * 1000
  const MAX_PAIRINGS: nat := 5
  const MAX_CODE_ATTEMPTS: nat := 5

  datatype Pairing = Pairing(
    client: string, origin: string, key: string, nonce: nat, code: string, attempts: nat, createdAt: int, expiresAt: int)

  datatype Challenge = Challenge(client: string, origin: string, nonce: nat, expiresAt: int)

  datatype Session = Session(token: nat, client: string, origin: string, expiresAt: int)

  /** The two messages a browser signs. */
  datatype Message =
    | PairingMessage(pairing: nat, nonce: nat, origin: string, instance: string, client: string)
    | SessionMessage(challenge: nat, nonce: nat, origin: string, instance: string, client: string)

  /** Signature verification is a predicate on key, message and signature. */
  datatype Setup = Setup(verify: (string, Message, string) -> bool, instance: string, trustDays: nat)

  /** What a session was minted from. */
  datatype Source = FromPairing(pairing: nat) | FromChallenge(challenge: nat)

  /** Why a call looks a client up. */
  datatype Purpose =
    | ToPair(key: string)
    | ToChallenge
    | ToProve(challenge: nat, nonce: nat, signature: string)
    | ToAuthorize(session: nat, token: nat, expiresAt: int)

  /** A call suspended at an await; `seen` is what its registry lookup has returned. */
  datatype Call =
    | Looking(purpose: Purpose, client: string, origin: string, at: int, seen: Option<Option<Client>>)
    | Registering(pairing: nat, entry: Client, outcome: Option<bool>)
    | Touching(challenge: nat, client: string, origin: string, settled: bool)

  /** The mutation queue's entries, with the call that waits for each. */
  datatype Mutation =
    | RegisterEntry(call: nat, pairing: nat, entry: Client, now: int)
    | TouchEntry(call: nat, client: string, origin: string, now: int)
    | RevokeEntry(id: string)

  /** What happened, in order, with the evidence it rests on. */
  datatype Event =
    | PairingOpened(pairing: nat, opening: Pairing)
    | WrongCode(pairing: nat)
    | PairingAccepted(pairing: nat, entry: Client, typed: string, signature: string, at: int)
    | Registered(pairing: nat, entry: Client)
    | ChallengeOpened(challenge: nat, asked: Challenge, at: int)
    | ChallengeSpent(challenge: nat, at: int)
    | SessionProved(challenge: nat, entry: Client, signature: string)
    | SessionIssued(session: nat, token: nat, source: Source, client: string, origin: string, at: int, expiresAt: int)
    | ClientChecked(session: nat, entry: Client, at: int)
    | Authorized(session: nat, token: nat, client: string, origin: string, at: int, expiresAt: int)

  datatype Agent = Agent(
    pairings: map<nat, Pairing>,
    challenges: map<nat, Challenge>,
    sessions: map<nat, Session>,
    clients: seq<Client>,
    queue: seq<Mutation>,
    calls: map<nat, Call>,
    log: seq<Event>)

  // ------------------------------------------------------------------------ steps

  datatype AuthStep =
    | BeginCreatePairing(call: nat, client: string, origin: string, key: string, valid: bool, now: int)
    | ResumeCreatePairing(call: nat, duplicate: Option<nat>, pairing: nat, nonce: nat, code: string, now: int)
    | BeginCompletePairing(call: nat, pairing: nat, typed: string, signature: string, now: int)
    | ResumeRegister(call: nat, session: nat, token: nat, now: int)
    | BeginCreateChallenge(call: nat, client: string, origin: string, now: int)
    | ResumeCreateChallenge(call: nat, challenge: nat, nonce: nat, now: int)
    | BeginCompleteSession(call: nat, challenge: nat, signature: string, now: int)
    | ResumeCompleteSession(call: nat, now: int)
    | ResumeTouch(call: nat, session: nat, token: nat, now: int)
    | BeginAuthorize(call: nat, token: nat, origin: string, found: Option<nat>, now: int)
    | ResumeAuthorize(call: nat)
    | ReadRegistry(call: nat)     // the manifest read of a lookup
    | RunMutation(stored: bool)   // the head of the queue, written unless the file system fails
    | AskRevoke(id: string)

  /** `find` over the sessions. */
  predicate IsSessionFound(sessions: map<nat, Session>, token: nat, origin: string, found: Option<nat>) {
    match found
    case Some(s) => s in sessions && sessions[s].origin == origin && sessions[s].token == token
    case None => forall s :: s in sessions ==> !(sessions[s].origin == origin && sessions[s].token == token)
  }

  /** `find` over the pending pairings of a (client, origin) pair. */
  predicate IsDuplicateFound(pairings: map<nat, Pairing>, client: string, origin: string, found: Option<nat>) {
    match found
    case Some(p) => p in pairings && pairings[p].client == client && pairings[p].origin == origin
    case None => forall p :: p in pairings ==> !(pairings[p].client == client && pairings[p].origin == origin)
  }

  /** The call has what its lookup was for. */
  predicate HasLooked(a: Agent, call: nat) {
    call in a.calls && a.calls[call].Looking? && a.calls[call].seen.Some?
  }

  ghost predicate IsOpened(log: seq<Event>, pairing: nat) {
    exists opening :: PairingOpened(pairing, opening) in log
  }

  ghost predicate IsAsked(log: seq<Event>, challenge: nat) {
    exists asked, at :: ChallengeOpened(challenge, asked, at) in log
  }

  ghost predicate IsMinted(log: seq<Event>, session: nat) {
    exists e :: e in log && e.SessionIssued? && e.session == session
  }

  /** The step can be taken, with random ids that were never used. */
  ghost predicate IsPossible(a: Agent, step: AuthStep) {
    match step
    case BeginCreatePairing(call, _, _, _, _, _) => call !in a.calls
    case ResumeCreatePairing(call, duplicate, pairing, _, _, _) =>
      && HasLooked(a, call) && a.calls[call].purpose.ToPair?
      && IsDuplicateFound(a.pairings, a.calls[call].client, a.calls[call].origin, duplicate)
      && !IsOpened(a.log, pairing)
    case BeginCompletePairing(call, _, _, _, _) => call !in a.calls
    case ResumeRegister(call, session, _, _) =>
      call in a.calls && a.calls[call].Registering? && a.calls[call].outcome.Some? && !IsMinted(a.log, session)
    case BeginCreateChallenge(call, _, _, _) => call !in a.calls
    case ResumeCreateChallenge(call, challenge, _, _) =>
      HasLooked(a, call) && a.calls[call].purpose.ToChallenge? && !IsAsked(a.log, challenge)
    case BeginCompleteSession(call, _, _, _) => call !in a.calls
    case ResumeCompleteSession(call, _) => HasLooked(a, call) && a.calls[call].purpose.ToProve?
    case ResumeTouch(call, session, _, _) =>
      call in a.calls && a.calls[call].Touching? && a.calls[call].settled && !IsMinted(a.log, session)
    case BeginAuthorize(call, token, origin, found, now) =>
      call !in a.calls && IsSessionFound(Cleaned(a, now).sessions, token, origin, found)
    case ResumeAuthorize(call) => HasLooked(a, call) && a.calls[call].purpose.ToAuthorize?
    case ReadRegistry(call) => call in a.calls && a.calls[call].Looking? && a.calls[call].seen.None?
    case RunMutation(_) => a.queue != []
    case AskRevoke(_) => true
  }

  /** `cleanup`. */
  function Cleaned(a: Agent, now: int): Agent {
    a.(pairings := map p | p in a.pairings && a.pairings[p].expiresAt > now :: a.pairings[p],
       challenges := map c | c in a.challenges && a.challenges[c].expiresAt > now :: a.challenges[c],
       sessions := map s | s in a.sessions && a.sessions[s].expiresAt > now :: a.sessions[s])
  }

  function Ended(a: Agent, call: nat): Agent {
    a.(calls := a.calls - {call})
  }

  function Noted(a: Agent, e: Event): Agent {
    a.(log := a.log + [e])
  }

  function Suspended(a: Agent, call: nat, c: Call): Agent {
    a.(calls := a.calls[call := c])
  }

  function WithoutDuplicate(a: Agent, duplicate: Option<nat>): Agent {
    if duplicate.Some? then a.(pairings := a.pairings - {duplicate.value}) else a
  }

  function Opened(a: Agent, call: nat, pairing: nat, p: Pairing): Agent {
    Noted(Ended(a.(pairings := a.pairings[pairing := p]), call), PairingOpened(pairing, p))
  }

  /** `createPairing` after its lookup. */
  function OpenPairing(a: Agent, call: nat, duplicate: Option<nat>, pairing: nat, nonce: nat, code: string, now: int): Agent
    requires IsPossible(a, ResumeCreatePairing(call, duplicate, pairing, nonce, code, now))
  {
    var c := a.calls[call];
    var kept := WithoutDuplicate(a, duplicate);
    if c.seen.value.Some? then Ended(a, call)
    else if duplicate.Some? && now - a.pairings[duplicate.value].createdAt < PAIRING_COOLDOWN_MS then Ended(a, call)
    else if |kept.pairings| >= MAX_PAIRINGS then Ended(kept, call)
    else Opened(kept, call, pairing, Pairing(c.client, c.origin, c.purpose.key, nonce, code, 0, now, now + PAIRING_TTL_MS))
  }

  function Counted(p: Pairing): Pairing {
    p.(attempts := p.attempts + 1)
  }

  /** A wrong code: the pairing keeps count, and is dropped at its fifth attempt. */
  function RejectCode(a: Agent, pairing: nat): Agent
    requires pairing in a.pairings
  {
    var p := Counted(a.pairings[pairing]);
    Noted(
      a.(pairings := if p.attempts >= MAX_CODE_ATTEMPTS then a.pairings - {pairing} else a.pairings[pairing := p]),
      WrongCode(pairing))
  }

  /** The right code and a good proof: the pairing is spent and its registration queued. */
  function AcceptPairing(
    a: Agent, call: nat, pairing: nat, entry: Client, typed: string, signature: string, now: int): Agent
  {
    Noted(
      Suspended(
        a.(pairings := a.pairings - {pairing}, queue := a.queue + [RegisterEntry(call, pairing, entry, now)]),
        call, Registering(pairing, entry, None)),
      PairingAccepted(pairing, entry, typed, signature, now))
  }

  function NewEntry(s: Setup, p: Pairing, now: int): Client {
    Client(p.client, p.origin, p.key, now + s.trustDays * DAY_MS, now, false)
  }

  /** `completePairing` up to its first await: everything that decides the pairing. A right
      code with a bad proof counts as an attempt too, but never drops the pairing. */
  function DecidePairing(s: Setup, a: Agent, call: nat, pairing: nat, typed: string, signature: string, now: int): Agent {
    if pairing !in a.pairings then a
    else
      var p := a.pairings[pairing];
      if Normalize(typed) != p.code then RejectCode(a, pairing)
      else if !s.verify(p.key, PairingMessage(pairing, p.nonce, p.origin, s.instance, p.client), signature) then
        a.(pairings := a.pairings[pairing := Counted(p)])
      else AcceptPairing(a, call, pairing, NewEntry(s, p, now), typed, signature, now)
  }

  /** `issueSession`, and the end of the call. */
  function Issue(a: Agent, call: nat, session: nat, token: nat, source: Source, client: string, origin: string, now: int): Agent {
    Noted(
      Ended(a.(sessions := a.sessions[session := Session(token, client, origin, now + SESSION_TTL_MS)]), call),
      SessionIssued(session, token, source, client, origin, now, now + SESSION_TTL_MS))
  }

  function Asked(a: Agent, call: nat, challenge: nat, asked: Challenge, now: int): Agent {
    Noted(Ended(a.(challenges := a.challenges[challenge := asked]), call), ChallengeOpened(challenge, asked, now))
  }

  /** `createSessionChallenge` after its lookup. */
  function OpenChallenge(a: Agent, call: nat, challenge: nat, nonce: nat, now: int): Agent
    requires IsPossible(a, ResumeCreateChallenge(call, challenge, nonce, now))
  {
    var c := a.calls[call];
    if c.seen.value.None? then Ended(a, call)
    else Asked(a, call, challenge, Challenge(c.client, c.origin, nonce, now + CHALLENGE_TTL_MS), now)
  }

  /** `completeSession` up to its first await. */
  function SpendChallenge(a: Agent, call: nat, challenge: nat, signature: string, now: int): Agent {
    if challenge !in a.challenges then a
    else
      var c := a.challenges[challenge];
      Noted(
        Suspended(
          a.(challenges := a.challenges - {challenge}),
          call, Looking(ToProve(challenge, c.nonce, signature), c.client, c.origin, now, None)),
        ChallengeSpent(challenge, now))
  }

  /** `completeSession` between its lookup and its second await. */
  function ProveSession(s: Setup, a: Agent, call: nat, now: int): Agent
    requires IsPossible(a, ResumeCompleteSession(call, now))
  {
    var c := a.calls[call];
    match c.seen.value
    case None => Ended(a, call)
    case Some(entry) =>
      var proof := c.purpose;
      if !s.verify(entry.key, SessionMessage(proof.challenge, proof.nonce, c.origin, s.instance, c.client), proof.signature)
      then Ended(a, call)
      else
        Noted(
          Suspended(
            a.(queue := a.queue + [TouchEntry(call, entry.id, entry.origin, now)]),
            call, Touching(proof.challenge, entry.id, entry.origin, false)),
          SessionProved(proof.challenge, entry, proof.signature))
  }

  /** A lookup's read of the registry, with the time taken when it was called. */
  function Look(a: Agent, call: nat): Agent
    requires IsPossible(a, ReadRegistry(call))
  {
    var c := a.calls[call];
    var found := FindActive(a.clients, c.client, c.origin, c.at);
    var looked := Suspended(a, call, c.(seen := Some(found)));
    if c.purpose.ToAuthorize? && found.Some? then Noted(looked, ClientChecked(c.purpose.session, found.value, c.at)) else looked
  }

  /** The head of the mutation queue runs, and its caller's await settles: with the failure
      when the change throws or the manifest is not stored. */
  function Mutate(a: Agent, stored: bool): Agent
    requires a.queue != []
  {
    var rest := a.(queue := a.queue[1..]);
    match a.queue[0]
    case RegisterEntry(call, pairing, entry, now) =>
      var registered := Register(a.clients, entry, now);
      if stored && registered.Some? then
        Noted(
          Settle(
            rest.(clients := registered.value), call,
            Registering(pairing, entry, None), Registering(pairing, entry, Some(true))),
          Registered(pairing, entry))
      else Settle(rest, call, Registering(pairing, entry, None), Registering(pairing, entry, Some(false)))
    case TouchEntry(call, client, origin, now) =>
      if stored then SettleTouch(rest.(clients := Touch(a.clients, client, origin, now)), call)
      else FailTouch(rest, call)
    case RevokeEntry(id) => if stored then rest.(clients := Revoke(a.clients, id)) else rest
  }

  function SettleTouch(a: Agent, call: nat): Agent {
    if call in a.calls && a.calls[call].Touching? then Suspended(a, call, a.calls[call].(settled := true)) else a
  }

  /** `completeSession` ends where its `touch` rejects, with its challenge spent. */
  function FailTouch(a: Agent, call: nat): Agent {
    if call in a.calls && a.calls[call].Touching? then Ended(a, call) else a
  }

  function Settle(a: Agent, call: nat, waiting: Call, settled: Call): Agent {
    if call in a.calls && a.calls[call] == waiting then Suspended(a, call, settled) else a
  }

  /** `authorize` after its lookup. */
  function Authorize(a: Agent, call: nat): Agent
    requires IsPossible(a, ResumeAuthorize(call))
  {
    var c := a.calls[call];
    if c.seen.value.None? then Ended(a.(sessions := a.sessions - {c.purpose.session}), call)
    else Noted(Ended(a, call), Authorized(c.purpose.session, c.purpose.token, c.client, c.origin, c.at, c.purpose.expiresAt))
  }

  function AfterStep(s: Setup, a: Agent, step: AuthStep): Agent
    requires IsPossible(a, step)
  {
    match step
    case BeginCreatePairing(call, client, origin, key, valid, now) =>
      if valid then Suspended(Cleaned(a, now), call, Looking(ToPair(key), client, origin, now, None)) else Cleaned(a, now)
    case ResumeCreatePairing(call, duplicate, pairing, nonce, code, now) =>
      OpenPairing(a, call, duplicate, pairing, nonce, code, now)
    case BeginCompletePairing(call, pairing, typed, signature, now) =>
      DecidePairing(s, Cleaned(a, now), call, pairing, typed, signature, now)
    case ResumeRegister(call, session, token, now) =>
      var c := a.calls[call];
      if c.outcome.value then Issue(a, call, session, token, FromPairing(c.pairing), c.entry.id, c.entry.origin, now)
      else Ended(a, call)
    case BeginCreateChallenge(call, client, origin, now) =>
      Suspended(Cleaned(a, now), call, Looking(ToChallenge, client, origin, now, None))
    case ResumeCreateChallenge(call, challenge, nonce, now) =>
      OpenChallenge(a, call, challenge, nonce, now)
    case BeginCompleteSession(call, challenge, signature, now) => SpendChallenge(Cleaned(a, now), call, challenge, signature, now)
    case ResumeCompleteSession(call, now) => ProveSession(s, a, call, now)
    case ResumeTouch(call, session, token, now) =>
      var c := a.calls[call];
      Issue(a, call, session, token, FromChallenge(c.challenge), c.client, c.origin, now)
    case BeginAuthorize(call, token, origin, found, now) =>
      var cleaned := Cleaned(a, now);
      if found.None? then cleaned
      else
        var session := cleaned.sessions[found.value];
        Suspended(cleaned, call, Looking(ToAuthorize(found.value, token, session.expiresAt), session.client, origin, now, None))
    case ResumeAuthorize(call) => Authorize(a, call)
    case ReadRegistry(call) => Look(a, call)
    case RunMutation(stored) => Mutate(a, stored)
    case AskRevoke(id) => a.(queue := a.queue + [RevokeEntry(id)])
  }

  // --------------------------------------------------------------- what justifies what

  ghost predicate IsAccepted(log: seq<Event>, pairing: nat) {
    exists e :: e in log && e.PairingAccepted? && e.pairing == pairing
  }

  ghost predicate IsSpent(log: seq<Event>, challenge: nat) {
    exists at :: ChallengeSpent(challenge, at) in log
  }

  ghost predicate IsIssued(log: seq<Event>, source: Source) {
    exists e :: e in log && e.SessionIssued? && e.source == source
  }

  /** The same trust: client, origin, key and end of the trust period. */
  predicate IsSameGrant(a: Client, b: Client) {
    a.id == b.id && a.origin == b.origin && a.key == b.key && a.expiresAt == b.expiresAt
  }

  /** A completed pairing registered this trust. */
  ghost predicate IsKnown(log: seq<Event>, entry: Client) {
    exists p, registered :: Registered(p, registered) in log && IsSameGrant(registered, entry)
  }

  ghost predicate IsAcceptedFor(log: seq<Event>, pairing: nat, entry: Client) {
    exists typed, signature, at :: PairingAccepted(pairing, entry, typed, signature, at) in log
  }

  ghost predicate IsProved(log: seq<Event>, challenge: nat, client: string, origin: string) {
    exists entry, signature :: SessionProved(challenge, entry, signature) in log && IsEntry(entry, client, origin)
  }

  ghost predicate IsPaired(log: seq<Event>, pairing: nat, client: string, origin: string) {
    exists entry :: Registered(pairing, entry) in log && IsEntry(entry, client, origin)
  }

  ghost predicate IsIssuedTo(log: seq<Event>, session: nat, minted: Session) {
    exists source, at ::
      SessionIssued(session, minted.token, source, minted.client, minted.origin, at, minted.expiresAt) in log
  }

  ghost predicate IsChecked(log: seq<Event>, session: nat, client: string, origin: string, at: int) {
    exists entry :: ClientChecked(session, entry, at) in log && IsEntry(entry, client, origin)
  }

  /** The code shown for this pairing was typed in time, and the key it was opened with
      signed its nonce; the trust it gives is for that client, origin and key. */
  predicate IsGoodPairing(
    s: Setup, pairing: nat, opening: Pairing, entry: Client, typed: string, signature: string, at: int)
  {
    && entry.id == opening.client && entry.origin == opening.origin && entry.key == opening.key
    && Normalize(typed) == opening.code
    && s.verify(opening.key, PairingMessage(pairing, opening.nonce, opening.origin, s.instance, opening.client), signature)
    && at < opening.expiresAt
    && entry.expiresAt == at + s.trustDays * DAY_MS
  }

  /** The key of the entry signed the nonce of a challenge asked for its client and origin. */
  predicate IsGoodAnswer(s: Setup, challenge: nat, asked: Challenge, entry: Client, signature: string) {
    && entry.id == asked.client && entry.origin == asked.origin
    && s.verify(entry.key, SessionMessage(challenge, asked.nonce, asked.origin, s.instance, asked.client), signature)
  }

  ghost predicate IsGoodFor(
    s: Setup, log: seq<Event>, pairing: nat, entry: Client, typed: string, signature: string, at: int)
  {
    exists opening :: PairingOpened(pairing, opening) in log && IsGoodPairing(s, pairing, opening, entry, typed, signature, at)
  }

  ghost predicate IsAnswered(s: Setup, log: seq<Event>, challenge: nat, entry: Client, signature: string) {
    exists asked, at :: ChallengeOpened(challenge, asked, at) in log && IsGoodAnswer(s, challenge, asked, entry, signature)
  }

  ghost predicate IsSpentInTime(log: seq<Event>, challenge: nat, at: int) {
    exists asked, since :: ChallengeOpened(challenge, asked, since) in log && at < asked.expiresAt
  }

  /** What must have happened before an event. */
  ghost predicate IsJustified(s: Setup, prior: seq<Event>, e: Event) {
    match e
    case PairingOpened(pairing, opening) =>
      !IsOpened(prior, pairing) && opening.attempts == 0 && opening.expiresAt == opening.createdAt + PAIRING_TTL_MS
    case WrongCode(pairing) => IsOpened(prior, pairing) && !IsAccepted(prior, pairing)
    case PairingAccepted(pairing, entry, typed, signature, at) =>
      !IsAccepted(prior, pairing) && IsGoodFor(s, prior, pairing, entry, typed, signature, at)
    case Registered(pairing, entry) => IsAcceptedFor(prior, pairing, entry)
    case ChallengeOpened(challenge, asked, at) => !IsAsked(prior, challenge) && asked.expiresAt == at + CHALLENGE_TTL_MS
    case ChallengeSpent(challenge, at) => !IsSpent(prior, challenge) && IsSpentInTime(prior, challenge, at)
    case SessionProved(challenge, entry, signature) =>
      IsSpent(prior, challenge) && IsKnown(prior, entry) && IsAnswered(s, prior, challenge, entry, signature)
    case SessionIssued(session, _, source, client, origin, at, expiresAt) =>
      && !IsIssued(prior, source) && !IsMinted(prior, session) && expiresAt == at + SESSION_TTL_MS
      && (match source
          case FromPairing(pairing) => IsPaired(prior, pairing, client, origin)
          case FromChallenge(challenge) => IsProved(prior, challenge, client, origin))
    case ClientChecked(_, entry, at) => IsActive(entry, at) && IsKnown(prior, entry)
    case Authorized(session, token, client, origin, at, expiresAt) =>
      && at < expiresAt && IsIssuedTo(prior, session, Session(token, client, origin, expiresAt))
      && IsChecked(prior, session, client, origin, at)
  }

  ghost predicate IsTraced(s: Setup, log: seq<Event>) {
    forall i :: 0 <= i < |log| ==> IsJustified(s, log[..i], log[i])
  }

  /** How many wrong codes were tried on a pairing. */
  function WrongCodes(log: seq<Event>, pairing: nat): nat {
    if log == [] then 0
    else WrongCodes(log[..|log| - 1], pairing) + if log[|log| - 1] == WrongCode(pairing) then 1 else 0
  }
}
