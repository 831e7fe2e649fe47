/** The registry's mutations as they run: each reads the file, changes what it read and
    writes it back, in steps, and waits for the one before it on the promise chain. */
module MutationChain {
  import opened Schema
  import opened Seqs
  import opened TrustedClients
  import opened AgentAuth

  datatype Phase = Waiting | HasRead(manifest: seq<Client>) | Settled(written: bool)

  /** A mutation with the promise it waits for. */
  datatype Pending = Pending(mutation: Mutation, waitsFor: Option<nat>, phase: Phase)

  /** The file, all mutations asked for so far, and the promise the next one will wait for. */
  datatype Chain = Chain(file: seq<Client>, pending: seq<Pending>, last: Option<nat>)

  datatype ChainStep =
    | Ask(mutation: Mutation)
    | Read(index: nat)
    | Finish(index: nat, stored: bool)  // the change is made, and written unless the file system fails

  /** What a mutation makes of the manifest: None where it throws. */
  function ChangeOf(m: Mutation, manifest: seq<Client>): Option<seq<Client>> {
    match m
    case RegisterEntry(_, _, entry, now) => Register(manifest, entry, now)
    case TouchEntry(_, client, origin, now) => Some(Touch(manifest, client, origin, now))
    case RevokeEntry(id) => if exists c :: c in manifest && c.id == id then Some(Revoke(manifest, id)) else None
  }

  predicate HasSettled(c: Chain, promise: Option<nat>) {
    promise.Some? ==> promise.value < |c.pending| && c.pending[promise.value].phase.Settled?
  }

  predicate CanTake(c: Chain, step: ChainStep) {
    match step
    case Ask(_) => true
    case Read(k) => k < |c.pending| && c.pending[k].phase.Waiting? && HasSettled(c, c.pending[k].waitsFor)
    case Finish(k, _) => k < |c.pending| && c.pending[k].phase.HasRead?
  }

  function InPhase(pending: seq<Pending>, k: nat, phase: Phase): seq<Pending>
    requires k < |pending|
  {
    pending[k := pending[k].(phase := phase)]
  }

  function Take(c: Chain, step: ChainStep): Chain
    requires CanTake(c, step)
  {
    match step
    case Ask(m) => Chain(c.file, c.pending + [Pending(m, c.last, Waiting)], Some(|c.pending|))
    case Read(k) => c.(pending := InPhase(c.pending, k, HasRead(c.file)))
    case Finish(k, stored) =>
      match ChangeOf(c.pending[k].mutation, c.pending[k].phase.manifest)
      case Some(changed) =>
        if stored then Chain(changed, InPhase(c.pending, k, Settled(true)), c.last)
        else c.(pending := InPhase(c.pending, k, Settled(false)))
      case None => c.(pending := InPhase(c.pending, k, Settled(false)))
  }

  // ------------------------------------------------------------------- the specification

  /** The mutations that were written, applied one after the other in the order they were
      asked for. */
  function InOrder(file: seq<Client>, pending: seq<Pending>): seq<Client> {
    if pending == [] then file
    else
      var before, last := InOrder(file, pending[..|pending| - 1]), pending[|pending| - 1];
      if last.phase != Settled(true) then before
      else match ChangeOf(last.mutation, before)
        case Some(changed) => changed
        case None => before
  }

  /** Each mutation waits for the one asked for before it. */
  ghost predicate IsLinked(c: Chain) {
    && c.last == (if c.pending == [] then None else Some(|c.pending| - 1))
    && forall k :: 0 <= k < |c.pending| ==> c.pending[k].waitsFor == if k == 0 then None else Some(k - 1)
  }

  /** Whatever has begun has all its predecessors settled. */
  ghost predicate OneAtATime(pending: seq<Pending>) {
    forall j, k :: 0 <= j < k < |pending| && !pending[k].phase.Waiting? ==> pending[j].phase.Settled?
  }

  /** What was read and not yet changed is what the file holds. */
  ghost predicate HaveRead(pending: seq<Pending>, file: seq<Client>) {
    forall k :: 0 <= k < |pending| && pending[k].phase.HasRead? ==> pending[k].phase.manifest == file
  }

  /** Whatever was written could be. */
  ghost predicate AllCouldBeMade(file: seq<Client>, pending: seq<Pending>) {
    forall k :: 0 <= k < |pending| && pending[k].phase == Settled(true) ==>
      ChangeOf(pending[k].mutation, InOrder(file, pending[..k])).Some?
  }

  ghost predicate ChainInv(file: seq<Client>, c: Chain) {
    && IsLinked(c) && OneAtATime(c.pending) && AllCouldBeMade(file, c.pending)
    && HaveRead(c.pending, c.file) && c.file == InOrder(file, c.pending)
  }

  // --------------------------------------------------------------------------- proofs

  lemma {:induction false} NothingWrittenBehind(file: seq<Client>, pending: seq<Pending>, n: nat)
    requires n <= |pending| && forall k :: n <= k < |pending| ==> pending[k].phase != Settled(true)
    ensures InOrder(file, pending) == InOrder(file, pending[..n])
    decreases |pending|
  {
    if n == |pending| {
      TakeAll(pending);
    } else {
      NothingWrittenBehind(file, pending[..|pending| - 1], n);
      assert pending[..|pending| - 1][..n] == pending[..n];
    }
  }

  lemma WrittenAt(file: seq<Client>, pending: seq<Pending>, k: nat, changed: seq<Client>)
    requires k < |pending| && forall j :: k < j < |pending| ==> pending[j].phase != Settled(true)
    requires pending[k].phase == Settled(true) && ChangeOf(pending[k].mutation, InOrder(file, pending[..k])) == Some(changed)
    ensures InOrder(file, pending) == changed
  {
    NothingWrittenBehind(file, pending, k + 1);
    assert pending[..k + 1][..k] == pending[..k];
  }

  lemma SameBefore(pending: seq<Pending>, k: nat, phase: Phase)
    requires k < |pending|
    ensures forall i :: 0 <= i <= k ==> InPhase(pending, k, phase)[..i] == pending[..i]
  {}

  lemma AskKeepsChain(file: seq<Client>, c: Chain, m: Mutation)
    requires ChainInv(file, c)
    ensures ChainInv(file, Take(c, Ask(m)))
  {
    var after := Take(c, Ask(m));
    SameInFront(c.pending, after.pending[|c.pending|]);
    NothingWrittenBehind(file, after.pending, |c.pending|);
    TakeAll(c.pending);
    assert OneAtATime(after.pending) && HaveRead(after.pending, c.file);
  }

  lemma SameInFront(pending: seq<Pending>, next: Pending)
    ensures forall k :: 0 <= k <= |pending| ==> (pending + [next])[..k] == pending[..k]
  {}

  /** A phase that writes nothing changes nothing in the file. */
  lemma NothingWritten(file: seq<Client>, pending: seq<Pending>, k: nat, phase: Phase)
    requires k < |pending| && phase != Settled(true) && AllCouldBeMade(file, pending)
    requires forall j :: k <= j < |pending| ==> pending[j].phase != Settled(true)
    ensures AllCouldBeMade(file, InPhase(pending, k, phase))
    ensures InOrder(file, InPhase(pending, k, phase)) == InOrder(file, pending) == InOrder(file, pending[..k])
  {
    SameBefore(pending, k, phase);
    NothingWrittenBehind(file, pending, k);
    NothingWrittenBehind(file, InPhase(pending, k, phase), k);
  }

  lemma OneMoreWritten(file: seq<Client>, pending: seq<Pending>, k: nat, changed: seq<Client>)
    requires k < |pending| && AllCouldBeMade(file, pending)
    requires forall j :: k <= j < |pending| ==> pending[j].phase != Settled(true)
    requires ChangeOf(pending[k].mutation, InOrder(file, pending[..k])) == Some(changed)
    ensures AllCouldBeMade(file, InPhase(pending, k, Settled(true)))
    ensures InOrder(file, InPhase(pending, k, Settled(true))) == changed
  {
    SameBefore(pending, k, Settled(true));
    WrittenAt(file, InPhase(pending, k, Settled(true)), k, changed);
  }

  /** Around a mutation whose turn it is: all before it have settled, all behind it wait. */
  ghost predicate HasTheTurn(pending: seq<Pending>, k: nat) {
    && k < |pending|
    && (forall j :: 0 <= j < k ==> pending[j].phase.Settled?)
    && (forall j :: k < j < |pending| ==> pending[j].phase.Waiting?)
  }

  lemma TakesTurns(pending: seq<Pending>, k: nat)
    requires OneAtATime(pending) && k < |pending| && !pending[k].phase.Settled?
    requires !pending[k].phase.Waiting? || k == 0 || pending[k - 1].phase.Settled?
    ensures HasTheTurn(pending, k)
  {}

  lemma TurnKeepsOrder(pending: seq<Pending>, k: nat, phase: Phase)
    requires HasTheTurn(pending, k)
    ensures OneAtATime(InPhase(pending, k, phase))
  {}

  lemma TurnKeepsReads(pending: seq<Pending>, k: nat, phase: Phase, file: seq<Client>)
    requires HasTheTurn(pending, k) && (phase.HasRead? ==> phase.manifest == file)
    ensures HaveRead(InPhase(pending, k, phase), file)
  {}

  lemma PhaseKeepsLinks(c: Chain, k: nat, phase: Phase, file: seq<Client>)
    requires IsLinked(c) && k < |c.pending|
    ensures IsLinked(Chain(file, InPhase(c.pending, k, phase), c.last))
  {}

  lemma WhoReadsHasTheTurn(c: Chain, k: nat)
    requires IsLinked(c) && OneAtATime(c.pending) && CanTake(c, Read(k))
    ensures HasTheTurn(c.pending, k) && forall j :: k <= j < |c.pending| ==> c.pending[j].phase.Waiting?
  {
    TakesTurns(c.pending, k);
  }

  lemma ReadKeepsChain(file: seq<Client>, c: Chain, k: nat)
    requires ChainInv(file, c) && CanTake(c, Read(k))
    ensures ChainInv(file, Take(c, Read(k)))
  {
    var phase := HasRead(c.file);
    WhoReadsHasTheTurn(c, k);
    NothingWritten(file, c.pending, k, phase);
    PhaseKeepsLinks(c, k, phase, c.file);
    TurnKeepsOrder(c.pending, k, phase);
    TurnKeepsReads(c.pending, k, phase, c.file);
  }

  lemma FinishKeepsChain(file: seq<Client>, c: Chain, k: nat, stored: bool)
    requires ChainInv(file, c) && CanTake(c, Finish(k, stored))
    ensures ChainInv(file, Take(c, Finish(k, stored)))
  {
    var after := Take(c, Finish(k, stored));
    var phase := after.pending[k].phase;
    TakesTurns(c.pending, k);
    NothingWritten(file, c.pending, k, Settled(false));
    if phase == Settled(true) { OneMoreWritten(file, c.pending, k, after.file); }
    PhaseKeepsLinks(c, k, phase, after.file);
    TurnKeepsOrder(c.pending, k, phase);
    TurnKeepsReads(c.pending, k, phase, after.file);
  }

  ghost predicate IsSchedule(c: Chain, steps: seq<ChainStep>)
    decreases |steps|
  {
    steps != [] ==> CanTake(c, steps[0]) && IsSchedule(Take(c, steps[0]), steps[1..])
  }

  function RunChain(c: Chain, steps: seq<ChainStep>): Chain
    requires IsSchedule(c, steps)
    decreases |steps|
  {
    if steps == [] then c else RunChain(Take(c, steps[0]), steps[1..])
  }

  lemma {:induction false} ScheduleKeepsChain(file: seq<Client>, c: Chain, steps: seq<ChainStep>)
    requires ChainInv(file, c) && IsSchedule(c, steps)
    ensures ChainInv(file, RunChain(c, steps))
    decreases |steps|
  {
    if steps != [] {
      match steps[0] {
        case Ask(m) => AskKeepsChain(file, c, m);
        case Read(k) => ReadKeepsChain(file, c, k);
        case Finish(k, stored) => FinishKeepsChain(file, c, k, stored);
      }
      ScheduleKeepsChain(file, Take(c, steps[0]), steps[1..]);
    }
  }

  /** Over every schedule of reads and writes the file is what the mutations that succeeded
      make of it one after the other, in the order they were asked for: none is lost. */
  lemma NoUpdateIsLost(file: seq<Client>, steps: seq<ChainStep>)
    requires IsSchedule(Chain(file, [], None), steps)
    ensures var c := RunChain(Chain(file, [], None), steps);
            && c.file == InOrder(file, c.pending)
            && forall k :: 0 <= k < |c.pending| && c.pending[k].phase == Settled(true) ==>
                 ChangeOf(c.pending[k].mutation, InOrder(file, c.pending[..k])).Some?
  {
    ScheduleKeepsChain(file, Chain(file, [], None), steps);
  }

  /** So the protocol may take a mutation as one step: the registry after the head of its
      queue has run is what the chain writes, and where it writes nothing nothing is noted. */
  lemma MutateIsOneWrite(a: Agent, stored: bool)
    requires a.queue != []
    ensures Mutate(a, stored).clients == InOrder(a.clients, [Pending(a.queue[0], None, Settled(stored))])
    ensures !stored ==> Mutate(a, stored).log == a.log
  {
    var pending := [Pending(a.queue[0], None, Settled(stored))];
    assert pending[..0] == [];
    if a.queue[0].RevokeEntry? && ChangeOf(a.queue[0], a.clients).None? {
      NothingToRevoke(a.clients, a.queue[0].id);
    }
  }

  /** What has its turn is written exactly when the file system does its part and the change
      does not throw: a registration for a client already active, a revocation of an id
      that no entry has. */
  lemma SettlesAsWrittenIff(c: Chain, k: nat, stored: bool)
    requires CanTake(c, Finish(k, stored))
    ensures var manifest := c.pending[k].phase.manifest;
            Take(c, Finish(k, stored)).pending[k].phase
            == Settled(stored && match c.pending[k].mutation
                                 case RegisterEntry(_, _, entry, now) => FindActive(manifest, entry.id, entry.origin, now).None?
                                 case TouchEntry(_, _, _, _) => true
                                 case RevokeEntry(id) => exists i :: 0 <= i < |manifest| && manifest[i].id == id)
  {
    var manifest := c.pending[k].phase.manifest;
    match c.pending[k].mutation
    case RegisterEntry(_, _, entry, now) => RegisterSucceedsIff(manifest, entry, now);
    case TouchEntry(_, _, _, _) =>
    case RevokeEntry(id) =>
      if client :| client in manifest && client.id == id {
        var i :| 0 <= i < |manifest| && manifest[i] == client;
      }
  }

  // ----------------------------------------------------------------------- the object

  class TrustedClientStore {
    var file: seq<Client>
    var pending: seq<Pending>
    var mutation: Option<nat>

    function State(): Chain
      reads this
    {
      Chain(file, pending, mutation)
    }

    constructor (file: seq<Client>)
      ensures State() == Chain(file, [], None)
    {
      this.file, pending, mutation := file, [], None;
    }

    /** `mutate`, up to its return: the change waits for the promise that was last. */
    method Mutate(m: Mutation)
      modifies this
      ensures State() == Take(old(State()), Ask(m))
    {
      pending := pending + [Pending(m, mutation, Waiting)];
      mutation := Some(|pending| - 1);
    }

    method ReadManifest(k: nat)
      requires CanTake(State(), Read(k))
      modifies this
      ensures State() == Take(old(State()), Read(k))
    {
      pending := InPhase(pending, k, HasRead(file));
    }

    method ChangeAndWrite(k: nat, stored: bool)
      requires CanTake(State(), Finish(k, stored))
      modifies this
      ensures State() == Take(old(State()), Finish(k, stored))
    {
      var changed := ChangeOf(pending[k].mutation, pending[k].phase.manifest);
      if changed.Some? && stored {
        file := changed.value;
      }
      pending := InPhase(pending, k, Settled(changed.Some? && stored));
    }
  }
}
