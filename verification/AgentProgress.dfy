/** What a call that is entitled to something gets: the converse of the safety results, step
    by step and over every interleaving with other calls. */
module AgentProgress {
  import opened Schema
  import opened Seqs
  import opened TrustedClients
  import opened PairingCodes
  import opened AgentAuth
  import opened AgentSafety

  // Times are in milliseconds, written out as in the main results of AgentSafety.

  // ------------------------------------------------------------ what one stretch decides

  /** The pending pairings that do not make way for a new one. */
  function Remaining(a: Agent, duplicate: Option<nat>): map<nat, Pairing> {
    map p | p in a.pairings && duplicate != Some(p) :: a.pairings[p]
  }

  predicate IsFor(p: Pairing, c: Call)
    requires c.Looking?
  {
    p.client == c.client && p.origin == c.origin
  }

  /** A request to pair goes on to the registry exactly when its client, origin and key are
      well formed. */
  lemma RequestIsLookedUpIff(s: Setup, a: Agent, call: nat, client: string, origin: string, key: string, valid: bool, now: int)
    requires call !in a.calls
    ensures var after := AfterStep(s, a, BeginCreatePairing(call, client, origin, key, valid, now));
            && (call in after.calls <==> valid)
            && (valid ==> after.calls == a.calls[call := Looking(ToPair(key), client, origin, now, None)])
  {}

  /** The older request is one of the same client and origin, if there is any. */
  lemma OlderIsOfThePair(a: Agent, call: nat, duplicate: Option<nat>, pairing: nat, nonce: nat, code: string, now: int)
    requires IsPossible(a, ResumeCreatePairing(call, duplicate, pairing, nonce, code, now))
    ensures duplicate.Some? <==> exists p :: p in a.pairings && IsFor(a.pairings[p], a.calls[call])
    ensures duplicate.Some? ==> duplicate.value in a.pairings && IsFor(a.pairings[duplicate.value], a.calls[call])
  {
    if duplicate.Some? { assert IsFor(a.pairings[duplicate.value], a.calls[call]); }
  }

  /** A pairing is opened exactly when the client is not trusted yet, no request of the same
      client and origin is younger than ten seconds, and fewer than five others are pending;
      it takes the place of an older request and can be completed for two minutes. */
  lemma PairingOpensIff(s: Setup, a: Agent, call: nat, duplicate: Option<nat>, pairing: nat, nonce: nat, code: string, now: int)
    requires IsPossible(a, ResumeCreatePairing(call, duplicate, pairing, nonce, code, now))
    ensures var c := a.calls[call];
            var after := AfterStep(s, a, ResumeCreatePairing(call, duplicate, pairing, nonce, code, now));
            var opening := Pairing(c.client, c.origin, c.purpose.key, nonce, code, 0, now, now + 120_000);
            && (after.log == a.log + [PairingOpened(pairing, opening)]
                <==> c.seen.value.None? && |Remaining(a, duplicate)| < 5
                     && (duplicate.Some? ==> now - a.pairings[duplicate.value].createdAt >= 10_000))
            && (after.log != a.log ==> after.pairings == Remaining(a, duplicate)[pairing := opening])
            && call !in after.calls
  {
    assert Remaining(a, duplicate) == WithoutDuplicate(a, duplicate).pairings;
  }

  /** A pairing is accepted exactly when it is pending and not over, its code is typed, and
      its key signed its nonce; then its registration waits in the queue. */
  lemma CodeIsAcceptedIff(s: Setup, a: Agent, call: nat, pairing: nat, typed: string, signature: string, now: int)
    requires call !in a.calls
    ensures var after := AfterStep(s, a, BeginCompletePairing(call, pairing, typed, signature, now));
            && (call in after.calls
                <==> pairing in a.pairings && now < a.pairings[pairing].expiresAt
                     && Normalize(typed) == a.pairings[pairing].code
                     && var p := a.pairings[pairing];
                        s.verify(p.key, PairingMessage(pairing, p.nonce, p.origin, s.instance, p.client), signature))
            && (call in after.calls ==>
                  var p := a.pairings[pairing];
                  var entry := Client(p.client, p.origin, p.key, now + s.trustDays * 86_400_000, now, false);
                  && after.log == a.log + [PairingAccepted(pairing, entry, typed, signature, now)]
                  && after.queue == a.queue + [RegisterEntry(call, pairing, entry, now)]
                  && after.calls == a.calls[call := Registering(pairing, entry, None)]
                  && pairing !in after.pairings)
  {}

  /** The step clears away nothing that lasts beyond `until`. */
  predicate ClearsUpTo(step: AuthStep, until: int) {
    match step
    case BeginCreatePairing(_, _, _, _, _, now) => now <= until
    case BeginCompletePairing(_, _, _, _, now) => now <= until
    case BeginCreateChallenge(_, _, _, now) => now <= until
    case BeginCompleteSession(_, _, _, now) => now <= until
    case BeginAuthorize(_, _, _, _, now) => now <= until
    case _ => true
  }

  /** The step tries to complete the pairing. */
  predicate IsTry(step: AuthStep, pairing: nat) {
    step.BeginCompletePairing? && step.pairing == pairing
  }

  function Tries(steps: seq<AuthStep>, pairing: nat): nat {
    if steps == [] then 0 else (if IsTry(steps[0], pairing) then 1 else 0) + Tries(steps[1..], pairing)
  }

  /** The step neither completes the pairing nor takes its place, and comes before its end. */
  predicate LeavesPending(s: Setup, step: AuthStep, pairing: nat, p: Pairing) {
    && ClearsUpTo(step, p.expiresAt - 1)
    && (IsTry(step, pairing) ==>
          || Normalize(step.typed) != p.code
          || !s.verify(p.key, PairingMessage(pairing, p.nonce, p.origin, s.instance, p.client), step.signature))
    && (step.ResumeCreatePairing? ==> step.pairing != pairing && step.duplicate != Some(pairing))
  }

  lemma StaysAfterCleaning(a: Agent, pairing: nat, now: int)
    requires pairing in a.pairings && now < a.pairings[pairing].expiresAt
    ensures pairing in Cleaned(a, now).pairings && Cleaned(a, now).pairings[pairing] == a.pairings[pairing]
  {}

  lemma TryIsCounted(
    s: Setup, a: Agent, call: nat, tried: nat, typed: string, signature: string, now: int, pairing: nat, p: Pairing)
    requires call !in a.calls && LeavesPending(s, BeginCompletePairing(call, tried, typed, signature, now), pairing, p)
    requires pairing in a.pairings && a.pairings[pairing] == p && p.attempts + (if tried == pairing then 1 else 0) < 5
    ensures var after := DecidePairing(s, Cleaned(a, now), call, tried, typed, signature, now).pairings;
            pairing in after && after[pairing] == p.(attempts := p.attempts + if tried == pairing then 1 else 0)
  {
    StaysAfterCleaning(a, pairing, now);
  }

  lemma MutationLeavesPairings(a: Agent, stored: bool)
    requires a.queue != []
    ensures Mutate(a, stored).pairings == a.pairings
  {}

  lemma OpeningLeavesOthers(a: Agent, call: nat, duplicate: Option<nat>, other: nat, nonce: nat, code: string, now: int, pairing: nat)
    requires IsPossible(a, ResumeCreatePairing(call, duplicate, other, nonce, code, now))
    requires pairing in a.pairings && other != pairing && duplicate != Some(pairing)
    ensures var after := OpenPairing(a, call, duplicate, other, nonce, code, now).pairings;
            pairing in after && after[pairing] == a.pairings[pairing]
  {}

  lemma OthersLeavePending(s: Setup, a: Agent, step: AuthStep, pairing: nat, p: Pairing)
    requires IsPossible(a, step) && LeavesPending(s, step, pairing, p) && !step.BeginCompletePairing?
    requires pairing in a.pairings && a.pairings[pairing] == p
    ensures var after := AfterStep(s, a, step).pairings; pairing in after && after[pairing] == p
  {
    match step
    case ResumeCreatePairing(call, duplicate, other, nonce, code, now) =>
      OpeningLeavesOthers(a, call, duplicate, other, nonce, code, now, pairing);
    case RunMutation(stored) => MutationLeavesPairings(a, stored);
    case BeginCreatePairing(_, _, _, _, _, now) => StaysAfterCleaning(a, pairing, now);
    case BeginCreateChallenge(_, _, _, now) => StaysAfterCleaning(a, pairing, now);
    case BeginCompleteSession(_, _, _, now) => StaysAfterCleaning(a, pairing, now);
    case BeginAuthorize(_, _, _, _, now) => StaysAfterCleaning(a, pairing, now);
    case _ =>
  }

  lemma FailureIsCounted(s: Setup, a: Agent, step: AuthStep, pairing: nat, p: Pairing)
    requires IsPossible(a, step) && LeavesPending(s, step, pairing, p)
    requires pairing in a.pairings && a.pairings[pairing] == p && p.attempts + Tries([step], pairing) < 5
    ensures var after := AfterStep(s, a, step).pairings;
            pairing in after && after[pairing] == p.(attempts := p.attempts + Tries([step], pairing))
  {
    assert Tries([step], pairing) == if IsTry(step, pairing) then 1 else 0;
    if step.BeginCompletePairing? {
      TryIsCounted(s, a, step.call, step.pairing, step.typed, step.signature, step.now, pairing, p);
    } else {
      OthersLeavePending(s, a, step, pairing, p);
    }
  }

  /** Up to four failed attempts, by wrong codes or bad proofs, leave a pairing pending, with
      every one of them counted, whatever other calls do meanwhile. */
  lemma {:induction false} FailuresLeavePending(s: Setup, a: Agent, steps: seq<AuthStep>, pairing: nat, p: Pairing)
    requires IsRun(s, a, steps) && forall step :: step in steps ==> LeavesPending(s, step, pairing, p)
    requires pairing in a.pairings && a.pairings[pairing] == p && p.attempts + Tries(steps, pairing) < 5
    ensures var after := RunAgent(s, a, steps).pairings;
            pairing in after && after[pairing] == p.(attempts := p.attempts + Tries(steps, pairing))
    decreases |steps|
  {
    if steps != [] {
      var next := p.(attempts := p.attempts + Tries([steps[0]], pairing));
      assert Tries(steps, pairing) == Tries([steps[0]], pairing) + Tries(steps[1..], pairing);
      FailureIsCounted(s, a, steps[0], pairing, p);
      forall step | step in steps[1..] ensures LeavesPending(s, step, pairing, next) {
        assert step in steps && LeavesPending(s, step, pairing, p);
      }
      FailuresLeavePending(s, AfterStep(s, a, steps[0]), steps[1..], pairing, next);
    }
  }

  /** A stored registration gives its caller a session, for fifteen minutes. */
  lemma RegistrationIssuesIff(s: Setup, a: Agent, call: nat, session: nat, token: nat, now: int)
    requires IsPossible(a, ResumeRegister(call, session, token, now))
    ensures var after := AfterStep(s, a, ResumeRegister(call, session, token, now));
            var entry := a.calls[call].entry;
            && (after.log == a.log + [SessionIssued(
                  session, token, FromPairing(a.calls[call].pairing), entry.id, entry.origin, now, now + 900_000)]
                <==> a.calls[call].outcome == Some(true))
            && (a.calls[call].outcome == Some(true) ==>
                  after.sessions == a.sessions[session := Session(token, entry.id, entry.origin, now + 900_000)])
            && call !in after.calls
  {}

  /** A challenge is handed out exactly to a trusted client, and lives for thirty seconds. */
  lemma ChallengeOpensIff(s: Setup, a: Agent, call: nat, challenge: nat, nonce: nat, now: int)
    requires IsPossible(a, ResumeCreateChallenge(call, challenge, nonce, now))
    ensures var c := a.calls[call];
            var after := AfterStep(s, a, ResumeCreateChallenge(call, challenge, nonce, now));
            var asked := Challenge(c.client, c.origin, nonce, now + 30_000);
            && (after.log == a.log + [ChallengeOpened(challenge, asked, now)] <==> c.seen.value.Some?)
            && (c.seen.value.Some? ==> after.challenges == a.challenges[challenge := asked])
            && call !in after.calls
  {}

  /** An answer to a challenge is looked at exactly while the challenge lives, which it then
      does no longer. */
  lemma AnswerIsTakenIff(s: Setup, a: Agent, call: nat, challenge: nat, signature: string, now: int)
    requires call !in a.calls
    ensures var after := AfterStep(s, a, BeginCompleteSession(call, challenge, signature, now));
            && (call in after.calls <==> challenge in a.challenges && now < a.challenges[challenge].expiresAt)
            && (call in after.calls ==>
                  var c := a.challenges[challenge];
                  after.calls == a.calls[call := Looking(ToProve(challenge, c.nonce, signature), c.client, c.origin, now, None)])
            && challenge !in after.challenges
  {}

  /** It is good exactly when the client is trusted and its key signed the challenge's nonce. */
  lemma AnswerIsGoodIff(s: Setup, a: Agent, call: nat, now: int)
    requires IsPossible(a, ResumeCompleteSession(call, now))
    ensures var c := a.calls[call];
            var after := AfterStep(s, a, ResumeCompleteSession(call, now));
            && (call in after.calls
                <==> c.seen.value.Some?
                     && s.verify(
                          c.seen.value.value.key, SessionMessage(c.purpose.challenge, c.purpose.nonce, c.origin, s.instance, c.client),
                          c.purpose.signature))
            && (call in after.calls ==>
                  var entry := c.seen.value.value;
                  && after.calls == a.calls[call := Touching(c.purpose.challenge, entry.id, entry.origin, false)]
                  && after.queue == a.queue + [TouchEntry(call, entry.id, entry.origin, now)])
  {}

  /** A call is looked after exactly when some session that is not over has its token and
      origin. */
  lemma TokenIsKnownIff(s: Setup, a: Agent, call: nat, token: nat, origin: string, found: Option<nat>, now: int)
    requires IsPossible(a, BeginAuthorize(call, token, origin, found, now))
    ensures var after := AfterStep(s, a, BeginAuthorize(call, token, origin, found, now));
            && (call in after.calls
                <==> exists k :: k in a.sessions && a.sessions[k].token == token && a.sessions[k].origin == origin
                       && now < a.sessions[k].expiresAt)
            && (call in after.calls ==>
                  && found.Some? && found.value in a.sessions
                  && var session := a.sessions[found.value];
                  && session.token == token && session.origin == origin && now < session.expiresAt
                  && after.calls ==
                     a.calls[call := Looking(ToAuthorize(found.value, token, session.expiresAt), session.client, origin, now, None)])
  {
    if found.None? {
      forall k | k in a.sessions && a.sessions[k].token == token && a.sessions[k].origin == origin
        ensures now >= a.sessions[k].expiresAt
      {
        assert k in Cleaned(a, now).sessions <==> now < a.sessions[k].expiresAt;
      }
    }
  }

  /** And is authorized exactly when the registry read has found the client. */
  lemma AuthorizedIff(s: Setup, a: Agent, call: nat)
    requires IsPossible(a, ResumeAuthorize(call))
    ensures var c := a.calls[call];
            var after := AfterStep(s, a, ResumeAuthorize(call));
            && (after.log == a.log + [Authorized(c.purpose.session, c.purpose.token, c.client, c.origin, c.at, c.purpose.expiresAt)]
                <==> c.seen.value.Some?)
            && (c.seen.value.None? ==> after == a.(sessions := a.sessions - {c.purpose.session}, calls := a.calls - {call}))
  {}

  // -------------------------------------------------------- other calls leave a call alone

  /** The step is one of the call's own. */
  predicate IsStepOf(step: AuthStep, call: nat) {
    match step
    case RunMutation(_) => false
    case AskRevoke(_) => false
    case _ => step.call == call
  }

  predicate NoneIsOf(steps: seq<AuthStep>, call: nat) {
    forall i :: 0 <= i < |steps| ==> !IsStepOf(steps[i], call)
  }

  /** A call whose turn it is: it looks something up, or its change has been stored. */
  predicate IsSettledCall(c: Call) {
    match c
    case Looking(_, _, _, _, _) => true
    case Registering(_, _, outcome) => outcome.Some?
    case Touching(_, _, _, _) => false
  }

  predicate IsSameCall(before: map<nat, Call>, after: map<nat, Call>, call: nat) {
    (call in after <==> call in before) && (call in before ==> after[call] == before[call])
  }

  lemma BeginLeavesCall(s: Setup, a: Agent, step: AuthStep, call: nat)
    requires IsPossible(a, step) && !IsStepOf(step, call)
    requires step.BeginCreatePairing? || step.BeginCompletePairing? || step.BeginCreateChallenge? || step.BeginCompleteSession?
          || step.BeginAuthorize?
    ensures IsSameCall(a.calls, AfterStep(s, a, step).calls, call)
  {}

  lemma ResumeLeavesCall(s: Setup, a: Agent, step: AuthStep, call: nat)
    requires IsPossible(a, step) && !IsStepOf(step, call)
    requires step.ResumeCreateChallenge? || step.ResumeCompleteSession? || step.ResumeAuthorize?
    ensures IsSameCall(a.calls, AfterStep(s, a, step).calls, call)
  {}

  lemma IssueLeavesCall(s: Setup, a: Agent, step: AuthStep, call: nat)
    requires IsPossible(a, step) && !IsStepOf(step, call) && (step.ResumeRegister? || step.ResumeTouch?)
    ensures IsSameCall(a.calls, AfterStep(s, a, step).calls, call)
  {}

  lemma OpenLeavesCall(
    a: Agent, call: nat, duplicate: Option<nat>, pairing: nat, nonce: nat, code: string, now: int, other: nat)
    requires IsPossible(a, ResumeCreatePairing(call, duplicate, pairing, nonce, code, now)) && other != call
    ensures IsSameCall(a.calls, OpenPairing(a, call, duplicate, pairing, nonce, code, now).calls, other)
  {}

  lemma OnlyOwnCallsChange(s: Setup, a: Agent, step: AuthStep, call: nat)
    requires IsPossible(a, step) && !IsStepOf(step, call) && !step.RunMutation?
    ensures IsSameCall(a.calls, AfterStep(s, a, step).calls, call)
  {
    match step
    case AskRevoke(_) =>
    case ReadRegistry(_) =>
    case ResumeCreatePairing(other, duplicate, pairing, nonce, code, now) =>
      OpenLeavesCall(a, other, duplicate, pairing, nonce, code, now, call);
    case ResumeRegister(_, _, _, _) => IssueLeavesCall(s, a, step, call);
    case ResumeCreateChallenge(_, _, _, _) => ResumeLeavesCall(s, a, step, call);
    case ResumeCompleteSession(_, _) => ResumeLeavesCall(s, a, step, call);
    case ResumeTouch(_, _, _, _) => IssueLeavesCall(s, a, step, call);
    case ResumeAuthorize(_) => ResumeLeavesCall(s, a, step, call);
    case _ => BeginLeavesCall(s, a, step, call);
  }

  lemma MutationLeavesCall(a: Agent, stored: bool, call: nat)
    requires a.queue != [] && call in a.calls && IsSettledCall(a.calls[call])
    ensures IsSameCall(a.calls, Mutate(a, stored).calls, call)
  {}

  lemma StepLeavesCall(s: Setup, a: Agent, step: AuthStep, call: nat)
    requires IsPossible(a, step) && call in a.calls && IsSettledCall(a.calls[call]) && !IsStepOf(step, call)
    ensures IsSameCall(a.calls, AfterStep(s, a, step).calls, call)
  {
    if step.RunMutation? {
      MutationLeavesCall(a, step.stored, call);
    } else {
      OnlyOwnCallsChange(s, a, step, call);
    }
  }

  lemma {:induction false} RunLeavesCall(s: Setup, a: Agent, steps: seq<AuthStep>, call: nat)
    requires IsRun(s, a, steps) && call in a.calls && IsSettledCall(a.calls[call]) && NoneIsOf(steps, call)
    ensures call in RunAgent(s, a, steps).calls && RunAgent(s, a, steps).calls[call] == a.calls[call]
    decreases |steps|
  {
    if steps != [] {
      StepLeavesCall(s, a, steps[0], call);
      RunLeavesCall(s, AfterStep(s, a, steps[0]), steps[1..], call);
    }
  }

  // --------------------------------------------------- trust, while nothing revokes it

  lemma {:induction false} TouchKeepsTrust(clients: seq<Client>, client: string, origin: string, now: int, id: string, o: string, at: int)
    requires FindActive(clients, id, o, at).Some?
    ensures FindActive(Touch(clients, client, origin, now), id, o, at).Some?
    decreases |clients|
  {
    if clients != [] && !IsEntry(clients[0], client, origin) {
      FindFirst(clients[0], Touch(clients[1..], client, origin, now), id, o);
      if !IsEntry(clients[0], id, o) { TouchKeepsTrust(clients[1..], client, origin, now, id, o, at); }
    } else if clients != [] {
      FindFirst(Touch(clients, client, origin, now)[0], clients[1..], id, o);
    }
  }

  lemma {:induction false} RevokeKeepsOthers(clients: seq<Client>, other: string, id: string, origin: string)
    requires other != id
    ensures Find(Revoke(clients, other), id, origin) == Find(clients, id, origin)
    decreases |clients|
  {
    if clients != [] {
      FindFirst(clients[0].(revoked := true), clients[1..], id, origin);
      FindFirst(clients[0], Revoke(clients[1..], other), id, origin);
      RevokeKeepsOthers(clients[1..], other, id, origin);
    }
  }

  lemma RegisterKeepsTrust(clients: seq<Client>, entry: Client, now: int, id: string, origin: string, at: int)
    requires FindActive(clients, id, origin, at).Some? && Register(clients, entry, now).Some?
    requires IsEntry(entry, id, origin) ==> now <= at
    ensures FindActive(Register(clients, entry, now).value, id, origin, at) == FindActive(clients, id, origin, at)
  {
    FindAfterRegister(clients, entry, id, origin);
  }

  /** The step's clock, if it clears by one, is not past `until`, and the step stores neither a
      revocation of the client nor a registration of it asked for later than that. */
  predicate IsCalm(a: Agent, step: AuthStep, client: string, origin: string, until: int) {
    && ClearsUpTo(step, until)
    && (step.RunMutation? && step.stored && a.queue != [] ==>
          match a.queue[0]
          case RevokeEntry(id) => id != client
          case RegisterEntry(_, _, entry, now) => IsEntry(entry, client, origin) ==> now <= until
          case TouchEntry(_, _, _, _) => true)
  }

  ghost predicate RunIsCalm(s: Setup, a: Agent, steps: seq<AuthStep>, client: string, origin: string, until: int)
    requires IsRun(s, a, steps)
    decreases |steps|
  {
    steps != [] ==>
      IsCalm(a, steps[0], client, origin, until) && RunIsCalm(s, AfterStep(s, a, steps[0]), steps[1..], client, origin, until)
  }

  lemma MutationKeepsTrust(a: Agent, stored: bool, client: string, origin: string, until: int)
    requires a.queue != [] && IsCalm(a, RunMutation(stored), client, origin, until)
    requires FindActive(a.clients, client, origin, until).Some?
    ensures FindActive(Mutate(a, stored).clients, client, origin, until).Some?
  {
    if stored {
      match a.queue[0]
      case RegisterEntry(_, _, entry, now) =>
        if Register(a.clients, entry, now).Some? { RegisterKeepsTrust(a.clients, entry, now, client, origin, until); }
      case TouchEntry(_, id, o, now) => TouchKeepsTrust(a.clients, id, o, now, client, origin, until);
      case RevokeEntry(id) => RevokeKeepsOthers(a.clients, id, client, origin);
    }
  }

  lemma OpeningWritesNothing(a: Agent, call: nat, duplicate: Option<nat>, pairing: nat, nonce: nat, code: string, now: int)
    requires IsPossible(a, ResumeCreatePairing(call, duplicate, pairing, nonce, code, now))
    ensures OpenPairing(a, call, duplicate, pairing, nonce, code, now).clients == a.clients
  {}

  lemma BeginningWritesNothing(s: Setup, a: Agent, step: AuthStep)
    requires IsPossible(a, step)
    requires step.BeginCreatePairing? || step.BeginCompletePairing? || step.BeginCreateChallenge? || step.BeginCompleteSession?
          || step.BeginAuthorize?
    ensures AfterStep(s, a, step).clients == a.clients
  {}

  lemma OnlyMutationsWrite(s: Setup, a: Agent, step: AuthStep)
    requires IsPossible(a, step) && !step.RunMutation?
    ensures AfterStep(s, a, step).clients == a.clients
  {
    match step
    case ResumeCreatePairing(call, duplicate, pairing, nonce, code, now) =>
      OpeningWritesNothing(a, call, duplicate, pairing, nonce, code, now);
    case BeginCreatePairing(_, _, _, _, _, _) => BeginningWritesNothing(s, a, step);
    case BeginCompletePairing(_, _, _, _, _) => BeginningWritesNothing(s, a, step);
    case BeginCreateChallenge(_, _, _, _) => BeginningWritesNothing(s, a, step);
    case BeginCompleteSession(_, _, _, _) => BeginningWritesNothing(s, a, step);
    case BeginAuthorize(_, _, _, _, _) => BeginningWritesNothing(s, a, step);
    case _ =>
  }

  lemma StepKeepsTrust(s: Setup, a: Agent, step: AuthStep, client: string, origin: string, until: int)
    requires IsPossible(a, step) && IsCalm(a, step, client, origin, until)
    requires FindActive(a.clients, client, origin, until).Some?
    ensures FindActive(AfterStep(s, a, step).clients, client, origin, until).Some?
  {
    if step.RunMutation? {
      MutationKeepsTrust(a, step.stored, client, origin, until);
    } else {
      OnlyMutationsWrite(s, a, step);
    }
  }

  // ------------------------------------------------------------- a session while it lasts

  /** Calls that present the session ask for its client and origin, in time, and none has
      been told that the client is unknown. */
  predicate AreInOrder(calls: map<nat, Call>, session: nat, minted: Session, until: int) {
    forall k :: k in calls && calls[k].Looking? && calls[k].purpose.ToAuthorize? && calls[k].purpose.session == session ==>
      && calls[k].client == minted.client && calls[k].origin == minted.origin && calls[k].at <= until
      && calls[k].seen != Some(None)
  }

  /** The session is in the table, beyond `until`, and its client is trusted until then. */
  ghost predicate IsHeld(a: Agent, session: nat, minted: Session, until: int) {
    && session in a.sessions && a.sessions[session] == minted && until < minted.expiresAt
    && IsMinted(a.log, session)
    && FindActive(a.clients, minted.client, minted.origin, until).Some?
    && AreInOrder(a.calls, session, minted, until)
  }

  lemma MintedStays(log: seq<Event>, e: Event, session: nat)
    requires IsMinted(log, session)
    ensures IsMinted(log + [e], session)
  {
    var m :| m in log && m.SessionIssued? && m.session == session;
    assert m in log + [e];
  }

  lemma BeginKeepsHeld(s: Setup, a: Agent, step: AuthStep, session: nat, minted: Session, until: int)
    requires IsPossible(a, step) && IsCalm(a, step, minted.client, minted.origin, until) && IsHeld(a, session, minted, until)
    requires step.BeginCreatePairing? || step.BeginCreateChallenge? || step.BeginCompleteSession?
    ensures IsHeld(AfterStep(s, a, step), session, minted, until)
  {
    var after := AfterStep(s, a, step);
    if after.log != a.log { MintedStays(a.log, after.log[|a.log|], session); }
  }

  lemma DecidingKeepsHeld(
    s: Setup, a: Agent, call: nat, pairing: nat, typed: string, signature: string, now: int,
    session: nat, minted: Session, until: int)
    requires call !in a.calls && now <= until && IsHeld(a, session, minted, until)
    ensures IsHeld(DecidePairing(s, Cleaned(a, now), call, pairing, typed, signature, now), session, minted, until)
  {
    var after := DecidePairing(s, Cleaned(a, now), call, pairing, typed, signature, now);
    if after.log != a.log { MintedStays(a.log, after.log[|a.log|], session); }
  }

  lemma PresentingKeepsHeld(
    s: Setup, a: Agent, call: nat, token: nat, origin: string, found: Option<nat>, now: int,
    session: nat, minted: Session, until: int)
    requires IsPossible(a, BeginAuthorize(call, token, origin, found, now)) && now <= until && IsHeld(a, session, minted, until)
    ensures IsHeld(AfterStep(s, a, BeginAuthorize(call, token, origin, found, now)), session, minted, until)
  {}

  lemma ResumeKeepsHeld(s: Setup, a: Agent, step: AuthStep, session: nat, minted: Session, until: int)
    requires IsPossible(a, step) && IsHeld(a, session, minted, until)
    requires step.ResumeCreateChallenge? || step.ResumeCompleteSession?
    ensures IsHeld(AfterStep(s, a, step), session, minted, until)
  {
    var after := AfterStep(s, a, step);
    if after.log != a.log { MintedStays(a.log, after.log[|a.log|], session); }
  }

  lemma AuthorizingKeepsHeld(a: Agent, call: nat, session: nat, minted: Session, until: int)
    requires IsPossible(a, ResumeAuthorize(call)) && IsHeld(a, session, minted, until)
    ensures IsHeld(Authorize(a, call), session, minted, until)
  {
    var after := Authorize(a, call);
    if after.log != a.log { MintedStays(a.log, after.log[|a.log|], session); }
  }

  lemma IssuingKeepsHeld(s: Setup, a: Agent, step: AuthStep, session: nat, minted: Session, until: int)
    requires IsPossible(a, step) && IsHeld(a, session, minted, until) && (step.ResumeRegister? || step.ResumeTouch?)
    ensures IsHeld(AfterStep(s, a, step), session, minted, until)
  {
    var after := AfterStep(s, a, step);
    assert step.session != session;
    if after.log != a.log { MintedStays(a.log, after.log[|a.log|], session); }
  }

  lemma OpenKeepsHeld(
    a: Agent, call: nat, duplicate: Option<nat>, pairing: nat, nonce: nat, code: string, now: int,
    session: nat, minted: Session, until: int)
    requires IsPossible(a, ResumeCreatePairing(call, duplicate, pairing, nonce, code, now)) && IsHeld(a, session, minted, until)
    ensures IsHeld(OpenPairing(a, call, duplicate, pairing, nonce, code, now), session, minted, until)
  {
    var after := OpenPairing(a, call, duplicate, pairing, nonce, code, now);
    if after.log != a.log { MintedStays(a.log, after.log[|a.log|], session); }
  }

  lemma LookKeepsHeld(a: Agent, call: nat, session: nat, minted: Session, until: int)
    requires IsPossible(a, ReadRegistry(call)) && IsHeld(a, session, minted, until)
    ensures IsHeld(Look(a, call), session, minted, until)
  {
    var after := Look(a, call);
    if after.log != a.log { MintedStays(a.log, after.log[|a.log|], session); }
  }

  lemma SettlingKeepsOrder(a: Agent, call: nat, waiting: Call, settled: Call, session: nat, minted: Session, until: int)
    requires AreInOrder(a.calls, session, minted, until) && settled.Registering?
    ensures AreInOrder(Settle(a, call, waiting, settled).calls, session, minted, until)
    ensures Settle(a, call, waiting, settled).sessions == a.sessions && Settle(a, call, waiting, settled).log == a.log
  {}

  lemma TouchingKeepsOrder(a: Agent, call: nat, session: nat, minted: Session, until: int)
    requires AreInOrder(a.calls, session, minted, until)
    ensures AreInOrder(SettleTouch(a, call).calls, session, minted, until)
    ensures AreInOrder(FailTouch(a, call).calls, session, minted, until)
  {}

  lemma MutationKeepsOrder(a: Agent, stored: bool, session: nat, minted: Session, until: int)
    requires a.queue != [] && AreInOrder(a.calls, session, minted, until)
    ensures AreInOrder(Mutate(a, stored).calls, session, minted, until)
    ensures Mutate(a, stored).sessions == a.sessions
    ensures Mutate(a, stored).log == a.log || exists e :: Mutate(a, stored).log == a.log + [e]
  {
    var rest := a.(queue := a.queue[1..]);
    match a.queue[0]
    case RegisterEntry(call, pairing, entry, now) =>
      var waiting := Registering(pairing, entry, None);
      SettlingKeepsOrder(rest, call, waiting, Registering(pairing, entry, Some(false)), session, minted, until);
      var registered := Register(a.clients, entry, now);
      if registered.Some? {
        SettlingKeepsOrder(
          rest.(clients := registered.value), call, waiting, Registering(pairing, entry, Some(true)), session, minted, until);
      }
    case TouchEntry(call, client, origin, now) =>
      TouchingKeepsOrder(rest, call, session, minted, until);
      TouchingKeepsOrder(rest.(clients := Touch(a.clients, client, origin, now)), call, session, minted, until);
    case RevokeEntry(_) =>
  }

  lemma MutationKeepsHeld(a: Agent, stored: bool, session: nat, minted: Session, until: int)
    requires a.queue != [] && IsCalm(a, RunMutation(stored), minted.client, minted.origin, until) && IsHeld(a, session, minted, until)
    ensures IsHeld(Mutate(a, stored), session, minted, until)
  {
    MutationKeepsTrust(a, stored, minted.client, minted.origin, until);
    MutationKeepsOrder(a, stored, session, minted, until);
    if Mutate(a, stored).log != a.log {
      var e :| Mutate(a, stored).log == a.log + [e];
      MintedStays(a.log, e, session);
    }
  }

  lemma StepKeepsHeld(s: Setup, a: Agent, step: AuthStep, session: nat, minted: Session, until: int)
    requires IsPossible(a, step) && IsCalm(a, step, minted.client, minted.origin, until) && IsHeld(a, session, minted, until)
    ensures IsHeld(AfterStep(s, a, step), session, minted, until)
  {
    match step
    case RunMutation(stored) => MutationKeepsHeld(a, stored, session, minted, until);
    case AskRevoke(_) =>
    case ReadRegistry(call) => LookKeepsHeld(a, call, session, minted, until);
    case ResumeCreatePairing(call, duplicate, pairing, nonce, code, now) =>
      OpenKeepsHeld(a, call, duplicate, pairing, nonce, code, now, session, minted, until);
    case ResumeRegister(_, _, _, _) => IssuingKeepsHeld(s, a, step, session, minted, until);
    case ResumeCreateChallenge(_, _, _, _) => ResumeKeepsHeld(s, a, step, session, minted, until);
    case ResumeCompleteSession(_, _) => ResumeKeepsHeld(s, a, step, session, minted, until);
    case ResumeTouch(_, _, _, _) => IssuingKeepsHeld(s, a, step, session, minted, until);
    case ResumeAuthorize(call) => AuthorizingKeepsHeld(a, call, session, minted, until);
    case BeginAuthorize(call, token, origin, found, now) =>
      PresentingKeepsHeld(s, a, call, token, origin, found, now, session, minted, until);
    case BeginCompletePairing(call, pairing, typed, signature, now) =>
      DecidingKeepsHeld(s, a, call, pairing, typed, signature, now, session, minted, until);
    case _ => BeginKeepsHeld(s, a, step, session, minted, until);
  }

  lemma {:induction false} RunKeepsHeld(s: Setup, a: Agent, steps: seq<AuthStep>, session: nat, minted: Session, until: int)
    requires IsRun(s, a, steps) && RunIsCalm(s, a, steps, minted.client, minted.origin, until)
    requires IsHeld(a, session, minted, until)
    ensures IsHeld(RunAgent(s, a, steps), session, minted, until)
    decreases |steps|
  {
    if steps != [] {
      StepKeepsHeld(s, a, steps[0], session, minted, until);
      RunKeepsHeld(s, AfterStep(s, a, steps[0]), steps[1..], session, minted, until);
    }
  }

  // ------------------------------------------------------------------- looking a client up

  /** A call reads the registry once, other calls running before and after that. */
  ghost predicate Looks(s: Setup, a: Agent, call: nat, before: seq<AuthStep>, between: seq<AuthStep>) {
    && IsRun(s, a, before) && NoneIsOf(before, call) && NoneIsOf(between, call)
    && var after := RunAgent(s, a, before);
    && IsPossible(after, ReadRegistry(call)) && IsRun(s, AfterStep(s, after, ReadRegistry(call)), between)
  }

  ghost function Looked(s: Setup, a: Agent, call: nat, before: seq<AuthStep>, between: seq<AuthStep>): Agent
    requires Looks(s, a, call, before, between)
  {
    RunAgent(s, AfterStep(s, RunAgent(s, a, before), ReadRegistry(call)), between)
  }

  /** It comes out with what the registry held at that moment, judged by the time at which
      the call began. */
  lemma LookupReturns(s: Setup, a: Agent, call: nat, before: seq<AuthStep>, between: seq<AuthStep>)
    requires call in a.calls && a.calls[call].Looking? && Looks(s, a, call, before, between)
    ensures var c := a.calls[call];
            var after := Looked(s, a, call, before, between);
            && call in after.calls
            && after.calls[call] ==
               c.(seen := Some(FindActive(RunAgent(s, a, before).clients, c.client, c.origin, c.at)))
  {
    RunLeavesCall(s, a, before, call);
    RunLeavesCall(s, AfterStep(s, RunAgent(s, a, before), ReadRegistry(call)), between, call);
  }

  // ------------------------------------------------------------------------ main results

  /** Whoever presents the token and origin of a session that is not over, and is found
      active when the registry is read, is authorized. */
  lemma PresentedSessionIsAuthorized(
    s: Setup, a: Agent, call: nat, token: nat, origin: string, found: Option<nat>, now: int, begun: Agent,
    before: seq<AuthStep>, between: seq<AuthStep>)
    requires IsPossible(a, BeginAuthorize(call, token, origin, found, now))
    requires exists k :: k in a.sessions && a.sessions[k].token == token && a.sessions[k].origin == origin
               && now < a.sessions[k].expiresAt
    requires begun == AfterStep(s, a, BeginAuthorize(call, token, origin, found, now)) && Looks(s, begun, call, before, between)
    requires found.Some? && found.value in a.sessions ==>
               FindActive(RunAgent(s, begun, before).clients, a.sessions[found.value].client, origin, now).Some?
    ensures found.Some? && found.value in a.sessions
    ensures var last, session := Looked(s, begun, call, before, between), a.sessions[found.value];
            && IsPossible(last, ResumeAuthorize(call))
            && AfterStep(s, last, ResumeAuthorize(call)).log
               == last.log + [Authorized(found.value, token, session.client, origin, now, session.expiresAt)]
  {
    TokenIsKnownIff(s, a, call, token, origin, found, now);
    LookupReturns(s, begun, call, before, between);
    AuthorizedIff(s, Looked(s, begun, call, before, between), call);
  }

  lemma TrustedEarlier(clients: seq<Client>, id: string, origin: string, early: int, late: int)
    requires early <= late && FindActive(clients, id, origin, late).Some?
    ensures FindActive(clients, id, origin, early).Some?
  {}

  lemma {:induction false} RunKeepsTrust(s: Setup, a: Agent, steps: seq<AuthStep>, client: string, origin: string, until: int)
    requires IsRun(s, a, steps) && RunIsCalm(s, a, steps, client, origin, until)
    requires FindActive(a.clients, client, origin, until).Some?
    ensures FindActive(RunAgent(s, a, steps).clients, client, origin, until).Some?
    decreases |steps|
  {
    if steps != [] {
      StepKeepsTrust(s, a, steps[0], client, origin, until);
      RunKeepsTrust(s, AfterStep(s, a, steps[0]), steps[1..], client, origin, until);
    }
  }

  /** No other session in the table has its token for its origin: tokens are random. */
  predicate IsAlone(sessions: map<nat, Session>, session: nat, minted: Session) {
    forall k :: k in sessions && sessions[k].token == minted.token && sessions[k].origin == minted.origin ==> k == session
  }

  /** A held session is authorized whenever it is presented, calm steps running meanwhile. */
  lemma HeldSessionIsAuthorized(
    s: Setup, a: Agent, session: nat, minted: Session, until: int, call: nat, found: Option<nat>, now: int, begun: Agent,
    before: seq<AuthStep>, between: seq<AuthStep>)
    requires IsHeld(a, session, minted, until) && now <= until && IsAlone(a.sessions, session, minted)
    requires IsPossible(a, BeginAuthorize(call, minted.token, minted.origin, found, now))
    requires begun == AfterStep(s, a, BeginAuthorize(call, minted.token, minted.origin, found, now))
    requires Looks(s, begun, call, before, between) && RunIsCalm(s, begun, before, minted.client, minted.origin, until)
    ensures var last := Looked(s, begun, call, before, between);
            && IsPossible(last, ResumeAuthorize(call))
            && AfterStep(s, last, ResumeAuthorize(call)).log
               == last.log + [Authorized(session, minted.token, minted.client, minted.origin, now, minted.expiresAt)]
  {
    TokenIsKnownIff(s, a, call, minted.token, minted.origin, found, now);
    OnlyMutationsWrite(s, a, BeginAuthorize(call, minted.token, minted.origin, found, now));
    RunKeepsTrust(s, begun, before, minted.client, minted.origin, until);
    TrustedEarlier(RunAgent(s, begun, before).clients, minted.client, minted.origin, now, until);
    PresentedSessionIsAuthorized(s, a, call, minted.token, minted.origin, found, now, begun, before, between);
  }

  /** A session that has just been minted for a trusted client is held. */
  lemma MintedIsHeld(s: Setup, a: Agent, call: nat, session: nat, token: nat, source: Source, client: string, origin: string, now: int, until: int)
    requires AgentInv(s, a) && !IsMinted(a.log, session) && until < now + 900_000
    requires FindActive(a.clients, client, origin, until).Some?
    ensures IsHeld(
              Issue(a, call, session, token, source, client, origin, now), session,
              Session(token, client, origin, now + 900_000), until)
  {
    var after := Issue(a, call, session, token, source, client, origin, now);
    assert after.log[|a.log|] in after.log;
    forall k | k in a.calls && a.calls[k].Looking? && a.calls[k].purpose.ToAuthorize?
      ensures a.calls[k].purpose.session != session
    {
      var c := a.calls[k];
      assert CallInv(a.log, c);
      var from, at :| SessionIssued(
        c.purpose.session, c.purpose.token, from, c.client, c.origin, at, c.purpose.expiresAt) in a.log;
    }
  }

  lemma StoredRegistrationIsTrusted(a: Agent, call: nat, pairing: nat, entry: Client, asked: int, until: int)
    requires a.queue != [] && a.queue[0] == RegisterEntry(call, pairing, entry, asked)
    requires Register(a.clients, entry, asked).Some? && !entry.revoked && until < entry.expiresAt
    requires call in a.calls && a.calls[call] == Registering(pairing, entry, None)
    ensures var stored := Mutate(a, true);
            && FindActive(stored.clients, entry.id, entry.origin, until) == Some(entry)
            && call in stored.calls && stored.calls[call] == Registering(pairing, entry, Some(true))
  {
    FindAfterRegister(a.clients, entry, entry.id, entry.origin);
  }

  /** From a stored registration on: the pairing call gets its session, and whoever presents
      it within fifteen minutes and the trust period is authorized, whatever other calls do
      meanwhile, as long as no revocation of the client is stored. */
  lemma PairedClientIsAuthorized(
    s: Setup, a: Agent, call: nat, pairing: nat, entry: Client, asked: int, until: int,
    stored: Agent, waiting: seq<AuthStep>, session: nat, token: nat, at: int,
    issued: Agent, idle: seq<AuthStep>, again: nat, found: Option<nat>, now: int,
    begun: Agent, before: seq<AuthStep>, between: seq<AuthStep>)
    requires AgentInv(s, a) && a.queue != [] && a.queue[0] == RegisterEntry(call, pairing, entry, asked)
    requires Register(a.clients, entry, asked).Some? && !entry.revoked && until < entry.expiresAt
    requires call in a.calls && a.calls[call] == Registering(pairing, entry, None)
    requires stored == Mutate(a, true) && IsRun(s, stored, waiting) && NoneIsOf(waiting, call)
    requires RunIsCalm(s, stored, waiting, entry.id, entry.origin, until)
    requires !IsMinted(RunAgent(s, stored, waiting).log, session) && until < at + 900_000
    requires issued == Issue(
               RunAgent(s, stored, waiting), call, session, token, FromPairing(pairing), entry.id, entry.origin, at)
    requires IsRun(s, issued, idle) && RunIsCalm(s, issued, idle, entry.id, entry.origin, until)
    requires var after := RunAgent(s, issued, idle);
             && IsAlone(after.sessions, session, Session(token, entry.id, entry.origin, at + 900_000)) && now <= until
             && IsPossible(after, BeginAuthorize(again, token, entry.origin, found, now))
             && begun == AfterStep(s, after, BeginAuthorize(again, token, entry.origin, found, now))
    requires Looks(s, begun, again, before, between) && RunIsCalm(s, begun, before, entry.id, entry.origin, until)
    ensures var paired := RunAgent(s, stored, waiting);
            && IsPossible(paired, ResumeRegister(call, session, token, at))
            && issued == AfterStep(s, paired, ResumeRegister(call, session, token, at))
    ensures var last := Looked(s, begun, again, before, between);
            && IsPossible(last, ResumeAuthorize(again))
            && AfterStep(s, last, ResumeAuthorize(again)).log
               == last.log + [Authorized(session, token, entry.id, entry.origin, now, at + 900_000)]
  {
    var minted := Session(token, entry.id, entry.origin, at + 900_000);
    StoredRegistrationIsTrusted(a, call, pairing, entry, asked, until);
    MutateKeepsAgent(s, a, true);
    RunKeepsAgent(s, stored, waiting);
    RunLeavesCall(s, stored, waiting, call);
    RunKeepsTrust(s, stored, waiting, entry.id, entry.origin, until);
    MintedIsHeld(
      s, RunAgent(s, stored, waiting), call, session, token, FromPairing(pairing), entry.id, entry.origin, at, until);
    RunKeepsHeld(s, issued, idle, session, minted, until);
    HeldSessionIsAuthorized(
      s, RunAgent(s, issued, idle), session, minted, until, again, found, now, begun, before, between);
  }

  // -------------------------------------------------------------- answering a challenge

  /** The call still waits for its touch, with or without having been told, or has failed. */
  predicate IsTouching(a: Agent, call: nat, challenge: nat, client: string, origin: string) {
    call in a.calls ==>
      && a.calls[call].Touching? && a.calls[call].challenge == challenge
      && a.calls[call].client == client && a.calls[call].origin == origin
  }

  lemma MutationLeavesTouching(a: Agent, stored: bool, call: nat, challenge: nat, client: string, origin: string)
    requires a.queue != [] && IsTouching(a, call, challenge, client, origin)
    ensures IsTouching(Mutate(a, stored), call, challenge, client, origin)
  {}

  lemma StepLeavesTouching(s: Setup, a: Agent, step: AuthStep, call: nat, challenge: nat, client: string, origin: string)
    requires IsPossible(a, step) && !IsStepOf(step, call) && IsTouching(a, call, challenge, client, origin)
    ensures IsTouching(AfterStep(s, a, step), call, challenge, client, origin)
  {
    if step.RunMutation? {
      MutationLeavesTouching(a, step.stored, call, challenge, client, origin);
    } else {
      OnlyOwnCallsChange(s, a, step, call);
    }
  }

  lemma {:induction false} RunLeavesTouching(
    s: Setup, a: Agent, steps: seq<AuthStep>, call: nat, challenge: nat, client: string, origin: string)
    requires IsRun(s, a, steps) && NoneIsOf(steps, call) && IsTouching(a, call, challenge, client, origin)
    ensures IsTouching(RunAgent(s, a, steps), call, challenge, client, origin)
    decreases |steps|
  {
    if steps != [] {
      StepLeavesTouching(s, a, steps[0], call, challenge, client, origin);
      RunLeavesTouching(s, AfterStep(s, a, steps[0]), steps[1..], call, challenge, client, origin);
    }
  }

  /** A good answer to a live challenge, by a client found active, mints a session for that
      client and origin as soon as the touch it waits for has been stored. */
  lemma GoodAnswerMintsASession(
    s: Setup, a: Agent, call: nat, challenge: nat, signature: string, now: int,
    taken: Agent, before: seq<AuthStep>, between: seq<AuthStep>, entry: Client, later: int,
    proved: Agent, waiting: seq<AuthStep>, session: nat, token: nat, at: int)
    requires call !in a.calls && challenge in a.challenges && now < a.challenges[challenge].expiresAt
    requires taken == AfterStep(s, a, BeginCompleteSession(call, challenge, signature, now))
    requires Looks(s, taken, call, before, between)
    requires var c := a.challenges[challenge];
             && FindActive(RunAgent(s, taken, before).clients, c.client, c.origin, now) == Some(entry)
             && s.verify(entry.key, SessionMessage(challenge, c.nonce, c.origin, s.instance, c.client), signature)
    requires var looked := Looked(s, taken, call, before, between);
             IsPossible(looked, ResumeCompleteSession(call, later)) ==>
               proved == AfterStep(s, looked, ResumeCompleteSession(call, later))
    requires IsRun(s, proved, waiting) && NoneIsOf(waiting, call)
    requires IsPossible(RunAgent(s, proved, waiting), ResumeTouch(call, session, token, at))
    ensures IsPossible(Looked(s, taken, call, before, between), ResumeCompleteSession(call, later))
    ensures TouchEntry(call, entry.id, entry.origin, later) in proved.queue
    ensures var last := RunAgent(s, proved, waiting);
            var after := AfterStep(s, last, ResumeTouch(call, session, token, at));
            && after.log == last.log + [SessionIssued(
                 session, token, FromChallenge(challenge), entry.id, entry.origin, at, at + 900_000)]
            && after.sessions == last.sessions[session := Session(token, entry.id, entry.origin, at + 900_000)]
  {
    AnswerIsTakenIff(s, a, call, challenge, signature, now);
    LookupReturns(s, taken, call, before, between);
    var looked := Looked(s, taken, call, before, between);
    AnswerIsGoodIff(s, looked, call, later);
    assert proved.queue[|looked.queue|] == TouchEntry(call, entry.id, entry.origin, later);
    RunLeavesTouching(s, proved, waiting, call, challenge, entry.id, entry.origin);
  }

  /** Which it has been when the queue has run it and the write did not fail. */
  lemma StoredTouchSettles(a: Agent, call: nat, client: string, origin: string, now: int, stored: bool)
    requires a.queue != [] && a.queue[0] == TouchEntry(call, client, origin, now)
    requires call in a.calls && a.calls[call].Touching?
    ensures if stored then call in Mutate(a, stored).calls && Mutate(a, stored).calls[call] == a.calls[call].(settled := true)
            else call !in Mutate(a, stored).calls
  {}
}
