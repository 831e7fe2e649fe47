/** The race of a lab deploy with a revocation, as a schedule from the seeded tables. */
module LabRace {
  import opened Schema
  import opened Bundle
  import opened Ledger
  import opened LedgerInvariants
  import opened ControlPlane
  import opened Locks
  import opened Interleavings
  import opened TwoRegions

  const STARTED: Txn := DeployStarted(Into("e1"), 0)
  const SLOT_HELD: Txn := DeploySlotHeld(Into("e1"), 0)
  const ALL_HELD: Txn := DeployAllHeld(Into("e1"), 0)
  const PLANNED: Txn := DeployPlanned(Into("e1"), 0, DeployPlan(Some("http://upstream"), None, false), WITH_REVISION)

  /** A workspace, a proxy and a revision are made; a deploy takes its locks and reads. */
  const DEPLOY_READS: seq<LockStep> := [
    Elsewhere(CREATE.op, 1), Elsewhere(NAME.op, 1), Elsewhere(IMPORT.op, 1),
    Begin(0, STARTED), Acquire(0), Acquire(0), Read(0)]

  function Alone(t: Txn): System {
    System(WITH_REVISION, map[0 := t])
  }

  lemma DeployReads(parse: Parser)
    ensures Ends(parse, System(WITH_REVISION, map[]), DEPLOY_READS[3..], Alone(PLANNED))
  {
    assert Ends(parse, Alone(PLANNED), [], Alone(PLANNED));
    FirstPlan();
    assert Stepped(parse, Alone(ALL_HELD), Read(0)) == Alone(PLANNED);
    StepInFront(parse, Alone(ALL_HELD), Read(0), Alone(PLANNED), [], [Read(0)], Alone(PLANNED));
    LocksAreTaken(parse);
  }

  lemma LocksAreTaken(parse: Parser)
    requires Ends(parse, Alone(ALL_HELD), [Read(0)], Alone(PLANNED))
    ensures Ends(parse, System(WITH_REVISION, map[]), DEPLOY_READS[3..], Alone(PLANNED))
  {
    assert IsFree(Alone(SLOT_HELD).txns, PathOf(Into("e1"))) && IsFree(Alone(STARTED).txns, SlotOf(Into("e1")));
    assert Stepped(parse, Alone(SLOT_HELD), Acquire(0)) == Alone(ALL_HELD);
    assert Stepped(parse, Alone(STARTED), Acquire(0)) == Alone(SLOT_HELD);
    StepInFront(parse, Alone(SLOT_HELD), Acquire(0), Alone(ALL_HELD), [Read(0)], [Acquire(0), Read(0)], Alone(PLANNED));
    StepInFront(
      parse, Alone(STARTED), Acquire(0), Alone(SLOT_HELD), [Acquire(0), Read(0)], [Acquire(0), Acquire(0), Read(0)], Alone(PLANNED));
    StepInFront(
      parse, System(WITH_REVISION, map[]), Begin(0, STARTED), Alone(STARTED), [Acquire(0), Acquire(0), Read(0)],
      DEPLOY_READS[3..], Alone(PLANNED));
  }

  lemma ElsewhereInFront(parse: Parser, db: Db, step: Step, after: Db, rest: seq<LockStep>, steps: seq<LockStep>, last: System)
    requires Leads(parse, db, step, after) && !step.op.OpDeploy? && !step.op.OpRetire?
    requires Ends(parse, System(after, map[]), rest, last) && steps == [Elsewhere(step.op, step.first)] + rest
    ensures Ends(parse, System(db, map[]), steps, last)
  {
    StepInFront(parse, System(db, map[]), Elsewhere(step.op, step.first), System(after, map[]), rest, steps, last);
  }

  lemma RevisionIsMade(parse: Parser)
    ensures Ends(parse, System(WITH_PROXY, map[]), DEPLOY_READS[2..], Alone(PLANNED))
  {
    DeployReads(parse);
    ImportLeads(parse);
    ElsewhereInFront(parse, WITH_PROXY, IMPORT, WITH_REVISION, DEPLOY_READS[3..], DEPLOY_READS[2..], Alone(PLANNED));
  }

  lemma ProxyIsMade(parse: Parser)
    ensures Ends(parse, System(MADE, map[]), DEPLOY_READS[1..], Alone(PLANNED))
  {
    RevisionIsMade(parse);
    NameLeads(parse);
    ElsewhereInFront(parse, MADE, NAME, WITH_PROXY, DEPLOY_READS[2..], DEPLOY_READS[1..], Alone(PLANNED));
  }

  lemma DeployReadsFromSeed(parse: Parser)
    ensures Ends(parse, System(SEED, map[]), DEPLOY_READS, Alone(PLANNED))
  {
    ProxyIsMade(parse);
    CreateLeads(parse);
    ElsewhereInFront(parse, SEED, CREATE, MADE, DEPLOY_READS[1..], DEPLOY_READS, Alone(PLANNED));
  }

  lemma LabIsOpen()
    ensures OpenWorkspace(WITH_REVISION.workspaces, OWNER) == Some(0) && IsOpenState(Alone(PLANNED))
    ensures WritesLabRow(WITH_REVISION, PLANNED)
  {
    assert Owns(LAB, OWNER);
  }

  /** From the seeded tables on, a deploy reads, its workspace is revoked, it writes: an
      active row in a closed workspace is left. */
  lemma RaceFromSeed(parse: Parser, first: nat, version: nat)
    ensures Ends(parse, System(SEED, map[]), DEPLOY_READS, Alone(PLANNED))
    ensures var race := [Elsewhere(OpRevokeWorkspace(OWNER), first), Write(0, version)];
            IsInterleaving(parse, Alone(PLANNED), race) && !IsOpenState(Interleaved(parse, Alone(PLANNED), race))
  {
    DeployReadsFromSeed(parse);
    SeedIsASystem(SEED);
    InterleavingsAreSafe(parse, System(SEED, map[]), DEPLOY_READS);
    LabIsOpen();
    RevocationRaces(parse, Alone(PLANNED), 0, OWNER, first, version);
  }
}
