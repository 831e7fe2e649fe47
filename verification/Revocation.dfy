/** What a revocation achieves, over every continuation of every run. */
module Revocation {
  import opened Schema
  import opened Seqs
  import opened TrustedClients
  import opened PairingCodes
  import opened AgentAuth
  import opened AgentSafety

  predicate IsRevoked(clients: seq<Client>, id: string) {
    forall c :: c in clients && c.id == id ==> c.revoked
  }

  /** Revoking revokes every registration of the id exactly when those after the first were
      revoked already. */
  lemma RevokeRevokesIff(clients: seq<Client>, id: string, k: nat)
    requires IsFirstOf(clients, k, id)
    ensures IsRevoked(Revoke(clients, id), id)
       <==> forall j :: k < j < |clients| && clients[j].id == id ==> clients[j].revoked
  {
    RevokeMarksTheFirst(clients, id, k);
    var after := Revoke(clients, id);
    forall j | k < j < |clients| ensures after[j] == clients[j] && after[j] in after {}
  }

  /** The client is registered for one origin at most. */
  predicate HasOneOrigin(clients: seq<Client>, id: string) {
    forall i, j :: 0 <= i < j < |clients| ==> clients[i].id != id || clients[j].id != id
  }

  lemma RevokedAtLast(clients: seq<Client>, id: string)
    requires HasOneOrigin(clients, id)
    ensures IsRevoked(Revoke(clients, id), id)
  {
    if i :| 0 <= i < |clients| && clients[i].id == id {
      assert IsFirstOf(clients, i, id);
      RevokeRevokesIff(clients, id, i);
    } else {
      NothingToRevoke(clients, id);
    }
  }

  // ----------------------------------------------------------------------- one step

  /** The event is not about this client being registered, or found active. */
  predicate RegistersNot(e: Event, id: string) {
    e.Registered? ==> e.entry.id != id
  }

  predicate FindsNot(e: Event, id: string) {
    e.ClientChecked? ==> e.entry.id != id
  }

  /** At most one event is noted; if the registry held the client revoked, the event does not
      find it active, and unless it registers it the registry still holds it revoked. */
  ghost predicate StaysRevoked(before: Agent, after: Agent, id: string) {
    || (after.log == before.log && (IsRevoked(before.clients, id) ==> IsRevoked(after.clients, id)))
    || (exists e :: after.log == before.log + [e] && IsHarmless(before, after, e, id))
  }

  predicate IsHarmless(before: Agent, after: Agent, e: Event, id: string) {
    IsRevoked(before.clients, id) ==> FindsNot(e, id) && (RegistersNot(e, id) ==> IsRevoked(after.clients, id))
  }

  lemma NotedStaysRevoked(before: Agent, after: Agent, e: Event, id: string)
    requires after.log == before.log + [e] && IsHarmless(before, after, e, id)
    ensures StaysRevoked(before, after, id)
  {}

  lemma SameGrantsStayRevoked(before: seq<Client>, after: seq<Client>, id: string)
    requires |after| == |before|
    requires forall k :: 0 <= k < |before| ==> after[k].id == before[k].id && (before[k].revoked ==> after[k].revoked)
    ensures IsRevoked(before, id) ==> IsRevoked(after, id)
  {
    forall k | 0 <= k < |after| && after[k].id == id && IsRevoked(before, id) ensures after[k].revoked {
      assert before[k] in before;
    }
  }

  lemma MutateStaysRevoked(a: Agent, stored: bool, id: string)
    requires a.queue != []
    ensures StaysRevoked(a, Mutate(a, stored), id)
  {
    match a.queue[0]
    case RegisterEntry(call, pairing, entry, now) =>
      if stored && Register(a.clients, entry, now).Some? {
        NotedStaysRevoked(a, Mutate(a, stored), Registered(pairing, entry), id);
      }
    case TouchEntry(call, client, origin, now) =>
      SameGrantsStayRevoked(a.clients, Touch(a.clients, client, origin, now), id);
    case RevokeEntry(other) =>
      SameGrantsStayRevoked(a.clients, Revoke(a.clients, other), id);
  }

  lemma LookStaysRevoked(a: Agent, call: nat, id: string)
    requires IsPossible(a, ReadRegistry(call))
    ensures StaysRevoked(a, Look(a, call), id)
  {
    var c := a.calls[call];
    var found := FindActive(a.clients, c.client, c.origin, c.at);
    if c.purpose.ToAuthorize? && found.Some? {
      NotedStaysRevoked(a, Look(a, call), ClientChecked(c.purpose.session, found.value, c.at), id);
    }
  }

  lemma DecideStaysRevoked(s: Setup, a: Agent, call: nat, pairing: nat, typed: string, signature: string, now: int, id: string)
    ensures StaysRevoked(a, DecidePairing(s, a, call, pairing, typed, signature, now), id)
  {
    if pairing in a.pairings {
      var p, after := a.pairings[pairing], DecidePairing(s, a, call, pairing, typed, signature, now);
      if Normalize(typed) != p.code {
        NotedStaysRevoked(a, after, WrongCode(pairing), id);
      } else if s.verify(p.key, PairingMessage(pairing, p.nonce, p.origin, s.instance, p.client), signature) {
        NotedStaysRevoked(a, after, PairingAccepted(pairing, NewEntry(s, p, now), typed, signature, now), id);
      }
    }
  }

  lemma OpenStaysRevoked(a: Agent, call: nat, duplicate: Option<nat>, pairing: nat, nonce: nat, code: string, now: int, id: string)
    requires IsPossible(a, ResumeCreatePairing(call, duplicate, pairing, nonce, code, now))
    ensures StaysRevoked(a, OpenPairing(a, call, duplicate, pairing, nonce, code, now), id)
  {
    var c, after := a.calls[call], OpenPairing(a, call, duplicate, pairing, nonce, code, now);
    if after.log != a.log {
      NotedStaysRevoked(
        a, after,
        PairingOpened(pairing, Pairing(c.client, c.origin, c.purpose.key, nonce, code, 0, now, now + PAIRING_TTL_MS)), id);
    }
  }

  lemma ProveStaysRevoked(s: Setup, a: Agent, call: nat, now: int, id: string)
    requires IsPossible(a, ResumeCompleteSession(call, now))
    ensures StaysRevoked(a, ProveSession(s, a, call, now), id)
  {
    var c, after := a.calls[call], ProveSession(s, a, call, now);
    if after.log != a.log {
      NotedStaysRevoked(a, after, SessionProved(c.purpose.challenge, c.seen.value.value, c.purpose.signature), id);
    }
  }

  lemma BeginStaysRevoked(s: Setup, a: Agent, step: AuthStep, id: string)
    requires IsPossible(a, step)
    requires step.BeginCreatePairing? || step.BeginCompletePairing? || step.BeginCreateChallenge? || step.BeginCompleteSession?
          || step.BeginAuthorize?
    ensures StaysRevoked(a, AfterStep(s, a, step), id)
  {
    match step
    case BeginCompletePairing(call, pairing, typed, signature, now) =>
      DecideStaysRevoked(s, Cleaned(a, now), call, pairing, typed, signature, now, id);
    case BeginCompleteSession(call, challenge, signature, now) =>
      if challenge in Cleaned(a, now).challenges {
        NotedStaysRevoked(a, AfterStep(s, a, step), ChallengeSpent(challenge, now), id);
      }
    case _ =>
  }

  lemma ResumeStaysRevoked(s: Setup, a: Agent, step: AuthStep, id: string)
    requires IsPossible(a, step)
    requires step.ResumeRegister? || step.ResumeCreateChallenge? || step.ResumeTouch? || step.ResumeAuthorize?
    ensures StaysRevoked(a, AfterStep(s, a, step), id)
  {
    var after := AfterStep(s, a, step);
    if after.log != a.log {
      NotedStaysRevoked(a, after, after.log[|a.log|], id);
    }
  }

  lemma StepStaysRevoked(s: Setup, a: Agent, step: AuthStep, id: string)
    requires IsPossible(a, step)
    ensures StaysRevoked(a, AfterStep(s, a, step), id)
  {
    match step
    case ResumeCreatePairing(call, duplicate, pairing, nonce, code, now) =>
      OpenStaysRevoked(a, call, duplicate, pairing, nonce, code, now, id);
    case ResumeCompleteSession(call, now) => ProveStaysRevoked(s, a, call, now, id);
    case ReadRegistry(call) => LookStaysRevoked(a, call, id);
    case RunMutation(stored) => MutateStaysRevoked(a, stored, id);
    case AskRevoke(other) =>
    case ResumeRegister(_, _, _, _) => ResumeStaysRevoked(s, a, step, id);
    case ResumeCreateChallenge(_, _, _, _) => ResumeStaysRevoked(s, a, step, id);
    case ResumeTouch(_, _, _, _) => ResumeStaysRevoked(s, a, step, id);
    case ResumeAuthorize(_) => ResumeStaysRevoked(s, a, step, id);
    case _ => BeginStaysRevoked(s, a, step, id);
  }

  // --------------------------------------------------------------------------- runs

  predicate NoneRegisters(log: seq<Event>, from: nat, id: string) {
    forall i :: from <= i < |log| ==> RegistersNot(log[i], id)
  }

  predicate NoneFinds(log: seq<Event>, from: nat, id: string) {
    forall i :: from <= i < |log| ==> FindsNot(log[i], id)
  }

  /** While nothing registers the client it stays revoked, and no read finds it active. */
  predicate StaysShut(before: Agent, after: Agent, id: string) {
    NoneRegisters(after.log, |before.log|, id) ==> IsRevoked(after.clients, id) && NoneFinds(after.log, |before.log|, id)
  }

  lemma StepThenRun(before: Agent, next: Agent, last: Agent, id: string)
    requires IsRevoked(before.clients, id) && StaysRevoked(before, next, id) && next.log <= last.log
    requires IsRevoked(next.clients, id) ==> StaysShut(next, last, id)
    ensures StaysShut(before, last, id)
  {
    if next.log != before.log {
      var e :| next.log == before.log + [e] && IsHarmless(before, next, e, id);
      assert last.log[|before.log|] == e;
    }
  }

  lemma {:induction false} RunLogs(s: Setup, a: Agent, steps: seq<AuthStep>)
    requires IsRun(s, a, steps)
    ensures a.log <= RunAgent(s, a, steps).log
    decreases |steps|
  {
    if steps != [] {
      StepStaysRevoked(s, a, steps[0], "");
      RunLogs(s, AfterStep(s, a, steps[0]), steps[1..]);
    }
  }

  lemma {:induction false} RunStaysRevoked(s: Setup, a: Agent, steps: seq<AuthStep>, id: string)
    requires IsRun(s, a, steps) && IsRevoked(a.clients, id)
    ensures a.log <= RunAgent(s, a, steps).log && StaysShut(a, RunAgent(s, a, steps), id)
    decreases |steps|
  {
    RunLogs(s, a, steps);
    if steps != [] {
      var next := AfterStep(s, a, steps[0]);
      StepStaysRevoked(s, a, steps[0], id);
      RunLogs(s, next, steps[1..]);
      if IsRevoked(next.clients, id) {
        RunStaysRevoked(s, next, steps[1..], id);
      }
      StepThenRun(a, next, RunAgent(s, next, steps[1..]), id);
    }
  }

  // ------------------------------------------------------------------- main result

  /** Once the queue has run and stored the revocation of a client registered for one origin, and as long
      as nothing registers it again, no registry read finds it: the only calls that are still
      authorized are those that had read the registry before. */
  lemma RevokedIsShutOut(s: Setup, before: seq<AuthStep>, rest: seq<AuthStep>, id: string)
    requires IsRun(s, FreshAgent(), before)
    requires var a := RunAgent(s, FreshAgent(), before);
             && a.queue != [] && a.queue[0] == RevokeEntry(id) && HasOneOrigin(a.clients, id)
             && IsRun(s, Mutate(a, true), rest)
             && NoneRegisters(RunAgent(s, Mutate(a, true), rest).log, |a.log|, id)
    ensures var a := RunAgent(s, FreshAgent(), before);
            var log := RunAgent(s, Mutate(a, true), rest).log;
            && NoneFinds(log, |a.log|, id)
            && forall i, session, token, origin, at, expiresAt ::
                 0 <= i < |log| && log[i] == Authorized(session, token, id, origin, at, expiresAt)
                 ==> IsChecked(a.log, session, id, origin, at)
  {
    var a := RunAgent(s, FreshAgent(), before);
    var b := RunAgent(s, Mutate(a, true), rest);
    RunKeepsAgent(s, FreshAgent(), before);
    MutateKeepsAgent(s, a, true);
    RunKeepsAgent(s, Mutate(a, true), rest);
    RevokedAtLast(a.clients, id);
    RunStaysRevoked(s, Mutate(a, true), rest, id);
    forall i, session, token, origin, at, expiresAt |
      0 <= i < |b.log| && b.log[i] == Authorized(session, token, id, origin, at, expiresAt)
      ensures IsChecked(a.log, session, id, origin, at)
    {
      CheckedBefore(s, b.log, |a.log|, i, session, token, id, origin, at, expiresAt);
    }
  }

  lemma CheckedBefore(
    s: Setup, log: seq<Event>, n: nat, i: nat, session: nat, token: nat, id: string, origin: string, at: int, expiresAt: int)
    requires IsTraced(s, log) && n <= |log| && NoneFinds(log, n, id)
    requires i < |log| && log[i] == Authorized(session, token, id, origin, at, expiresAt)
    ensures IsChecked(log[..n], session, id, origin, at)
  {
    assert IsJustified(s, log[..i], log[i]);
    var entry :| ClientChecked(session, entry, at) in log[..i] && IsEntry(entry, id, origin);
    var j :| 0 <= j < i && log[j] == ClientChecked(session, entry, at);
    assert log[j] in log[..n];
  }
}
