/** Interleaved deploys and retires as runs of whole transactions: in the order of their
    writes, as long as what they read still stands. */
module Interleavings {
  import opened Schema
  import opened Seqs
  import opened Bundle
  import opened Ledger
  import opened LedgerInvariants
  import opened ControlPlane
  import opened Locks

  predicate IsPlanned(t: Txn) {
    t.DeployPlanned? || t.RetirePlanned?
  }

  /** The transaction as a whole. */
  function AsOp(t: Txn): Op
    requires IsPlanned(t)
  {
    match t
    case DeployPlanned(i, now, _, _) => OpDeploy(i, now)
    case RetirePlanned(id, allow, _) => OpRetire(id, allow)
  }

  /** What the transaction relies on and its locks do not protect still stands. */
  predicate StillValid(db: Db, t: Txn)
    requires IsPlanned(t)
  {
    match t
    case DeployPlanned(i, now, plan, _) => DeployStands(db, i, now, plan)
    case RetirePlanned(id, _, _) => id < |db.rows| && db.rows[id].status.Active?
  }

  /** Then the write is what the whole transaction would do at this moment. */
  lemma WriteIsAtomic(db: Db, t: Txn, version: nat)
    requires TablesInv(db) && TxnInv(db, t) && IsPlanned(t) && StillValid(db, t)
    ensures Written(db, t, version) == Execute(db, AsOp(t), version).db
  {
    match t
    case DeployPlanned(i, now, plan, read) => DeployWriteIsAtomic(db, i, now, plan, read, version);
    case RetirePlanned(_, _, _) =>
  }

  // ------------------------------------------------------------------ linearization

  /** The transactions of an interleaving, each at its write. */
  ghost function Linearized(parse: Parser, s: System, steps: seq<LockStep>): seq<Step>
    requires IsInterleaving(parse, s, steps)
    decreases |steps|
  {
    if steps == [] then []
    else
      (match steps[0]
       case Write(t, version) => [Step(AsOp(s.txns[t]), version)]
       case Elsewhere(op, first) => [Step(op, first)]
       case _ => [])
      + Linearized(parse, Stepped(parse, s, steps[0]), steps[1..])
  }

  ghost predicate WritesStillValid(parse: Parser, s: System, steps: seq<LockStep>)
    requires IsInterleaving(parse, s, steps)
    decreases |steps|
  {
    steps != [] ==>
      && (steps[0].Write? ==> StillValid(s.db, s.txns[steps[0].t]))
      && WritesStillValid(parse, Stepped(parse, s, steps[0]), steps[1..])
  }

  lemma {:induction false} RunAfterFirst(parse: Parser, db: Db, first: Step, rest: seq<Step>)
    ensures Run(db, [first] + rest) == Run(Execute(db, first.op, first.first).db, rest)
    ensures IsPermitted(parse, db, first.op) && RunIsPermitted(parse, Execute(db, first.op, first.first).db, rest)
        ==> RunIsPermitted(parse, db, [first] + rest)
    decreases |rest|
  {
    var steps := [first] + rest;
    if rest == [] {
      assert steps[..0] == [];
    } else {
      assert steps[..|steps| - 1] == [first] + rest[..|rest| - 1] && steps[|steps| - 1] == rest[|rest| - 1];
      RunAfterFirst(parse, db, first, rest[..|rest| - 1]);
    }
  }

  /** One step of the interleaving is one transaction of the run, or none. */
  lemma StepIsTransaction(parse: Parser, s: System, step: LockStep)
    requires SystemInv(s) && CanStep(parse, s, step) && (step.Write? ==> StillValid(s.db, s.txns[step.t]))
    ensures var after := Stepped(parse, s, step).db;
            match step
            case Write(t, version) =>
              IsPermitted(parse, s.db, AsOp(s.txns[t])) && after == Execute(s.db, AsOp(s.txns[t]), version).db
            case Elsewhere(op, first) => IsPermitted(parse, s.db, op) && after == Execute(s.db, op, first).db
            case _ => after == s.db
  {
    if step.Write? {
      assert TxnInv(s.db, s.txns[step.t]);
      WriteIsAtomic(s.db, s.txns[step.t], step.version);
    }
  }

  /** An interleaving in which every write finds standing what it relied on ends where the
      transactions end when run one after the other, in the order of their writes. */
  lemma {:induction false} InterleavingIsARun(parse: Parser, s: System, steps: seq<LockStep>)
    requires SystemInv(s) && IsInterleaving(parse, s, steps) && WritesStillValid(parse, s, steps)
    ensures var run := Linearized(parse, s, steps);
            RunIsPermitted(parse, s.db, run) && Run(s.db, run) == Interleaved(parse, s, steps).db
    decreases |steps|
  {
    if steps != [] {
      var next := Stepped(parse, s, steps[0]);
      StepKeepsSystem(parse, s, steps[0]);
      StepIsTransaction(parse, s, steps[0]);
      InterleavingIsARun(parse, next, steps[1..]);
      var rest := Linearized(parse, next, steps[1..]);
      match steps[0]
      case Write(t, version) => RunAfterFirst(parse, s.db, Step(AsOp(s.txns[t]), version), rest);
      case Elsewhere(op, first) => RunAfterFirst(parse, s.db, Step(op, first), rest);
      case _ => EmptyFront(rest);
    }
  }

  // --------------------------------------------------------------- the standard scope

  predicate RowsAreStandard(rows: seq<Deployment>) {
    forall k :: 0 <= k < |rows| ==> rows[k].workspace.None?
  }

  predicate IsStandardTxn(t: Txn) {
    (t.DeployStarted? || t.DeploySlotHeld? || t.DeployAllHeld? || t.DeployPlanned?) ==> t.input.workspace.None?
  }

  ghost predicate IsStandardSystem(s: System) {
    RowsAreStandard(s.db.rows) && forall t :: t in s.txns ==> IsStandardTxn(s.txns[t])
  }

  predicate BeginsStandard(step: LockStep) {
    step.Begin? ==> IsStandardTxn(step.txn)
  }

  lemma StandardWritesAddStandard(db: Db, t: Txn, version: nat)
    requires RowsAreStandard(db.rows) && IsPlanned(t) && TxnInv(db, t) && IsStandardTxn(t)
    ensures RowsAreStandard(Written(db, t, version).rows)
  {}

  lemma OthersKeepStandard(db: Db, op: Op, first: nat)
    requires RowsAreStandard(db.rows) && !op.OpDeploy? && !op.OpRetire?
    ensures RowsAreStandard(Execute(db, op, first).db.rows)
  {
    OthersRetireLabRows(db, op, first);
  }

  lemma StandardStepsStayStandard(parse: Parser, s: System, step: LockStep)
    requires SystemInv(s) && IsStandardSystem(s) && CanStep(parse, s, step) && BeginsStandard(step)
    ensures IsStandardSystem(Stepped(parse, s, step))
  {
    match step
    case Write(t, version) => StandardWritesAddStandard(s.db, s.txns[t], version);
    case Elsewhere(op, first) => OthersKeepStandard(s.db, op, first);
    case _ =>
  }

  lemma StandardWritesStand(s: System, t: nat)
    requires SystemInv(s) && IsStandardSystem(s) && t in s.txns && IsPlanned(s.txns[t])
    ensures StillValid(s.db, s.txns[t])
  {
    assert TxnInv(s.db, s.txns[t]) && IsStandardTxn(s.txns[t]);
  }

  lemma {:induction false} StandardWritesStillValid(parse: Parser, s: System, steps: seq<LockStep>)
    requires SystemInv(s) && IsStandardSystem(s) && IsInterleaving(parse, s, steps)
    requires forall k :: 0 <= k < |steps| ==> BeginsStandard(steps[k])
    ensures WritesStillValid(parse, s, steps)
    decreases |steps|
  {
    if steps != [] {
      if steps[0].Write? { StandardWritesStand(s, steps[0].t); }
      StepKeepsSystem(parse, s, steps[0]);
      StandardStepsStayStandard(parse, s, steps[0]);
      StandardWritesStillValid(parse, Stepped(parse, s, steps[0]), steps[1..]);
    }
  }

  lemma SeedIsASystem(db: Db)
    requires IsSeed(db)
    ensures SystemInv(System(db, map[])) && IsStandardSystem(System(db, map[]))
  {}

  /** Standard deploys and retires need no more than their locks: however they interleave
      with each other and with all other transactions, from the seeded tables on, they end
      in a state that whole transactions reach, with all of its invariants. */
  lemma StandardInterleavingsAreRuns(parse: Parser, db: Db, steps: seq<LockStep>)
    requires IsSeed(db) && IsInterleaving(parse, System(db, map[]), steps)
    requires forall k :: 0 <= k < |steps| ==> BeginsStandard(steps[k])
    ensures var after, run := Interleaved(parse, System(db, map[]), steps).db, Linearized(parse, System(db, map[]), steps);
            RunIsPermitted(parse, db, run) && after == Run(db, run) && Inv(parse, after)
  {
    var s := System(db, map[]);
    SeedIsASystem(db);
    StandardWritesStillValid(parse, s, steps);
    InterleavingIsARun(parse, s, steps);
    RunKeepsInv(parse, db, Linearized(parse, s, steps));
  }

  // -------------------------------------------------------------------- the lab race

  predicate WritesLabRow(db: Db, t: Txn) {
    && t.DeployPlanned? && t.input.workspace.Some?
    && (t.plan.previous.Some? ==> t.plan.previous.value < |db.rows|)
    && !IndexRefuses(Kept(db, t.plan), t.input.proxy, t.input.environment)
  }

  predicate IsOpenNow(db: Db, workspace: nat) {
    workspace < |db.workspaces| && db.workspaces[workspace].status.Open?
  }

  /** If the workspace has closed by then, an active row in a closed workspace is what a
      lab write leaves behind. */
  lemma LabWriteStaysOpenIff(db: Db, i: DeployInput, plan: DeployPlan, version: nat)
    requires LabRowsAreOpen(db.rows, db.workspaces) && PlanHolds(db, i, plan) && i.workspace.Some?
    ensures var after := CommitDeploy(db, i, plan, version).db;
            LabRowsAreOpen(after.rows, after.workspaces) <==> IsOpenNow(db, i.workspace.value)
  {
    var after := CommitDeploy(db, i, plan, version).db;
    assert after.rows[|db.rows|] == NewRow(i, plan);
    forall k: nat | k < |db.rows| ensures after.rows[k] == db.rows[k] || after.rows[k].status.Retired? {}
  }

  lemma StandardWriteStaysOpen(db: Db, i: DeployInput, plan: DeployPlan, version: nat)
    requires LabRowsAreOpen(db.rows, db.workspaces) && PlanHolds(db, i, plan) && i.workspace.None?
    ensures var after := CommitDeploy(db, i, plan, version).db; LabRowsAreOpen(after.rows, after.workspaces)
  {
    var after := CommitDeploy(db, i, plan, version).db;
    forall k: nat | k < |db.rows| ensures after.rows[k] == db.rows[k] || after.rows[k].status.Retired? {}
  }

  lemma ClosingStaysOpen(db: Db, w: nat, status: WorkspaceStatus, first: nat)
    requires w < |db.workspaces| && LabRowsAreOpen(db.rows, db.workspaces)
    ensures var after := Deactivate(db, w, status, first); LabRowsAreOpen(after.rows, after.workspaces)
  {}

  lemma CreatingStaysOpen(db: Db, owner: Principal, org: string, now: int, first: nat)
    requires LabRowsAreOpen(db.rows, db.workspaces)
    ensures var after := CreateWorkspace(db, owner, org, now, first).db; LabRowsAreOpen(after.rows, after.workspaces)
  {
    if OpenWorkspace(db.workspaces, owner).Some? {
      ClosingStaysOpen(db, OpenWorkspace(db.workspaces, owner).value, Expired, first);
    }
  }

  lemma ExpiringStaysOpen(db: Db, w: nat, first: nat)
    requires LabRowsAreOpen(db.rows, db.workspaces)
    ensures var after := ExpireWorkspace(db, w, first); LabRowsAreOpen(after.rows, after.workspaces)
  {
    if w < |db.workspaces| { ClosingStaysOpen(db, w, Expired, first); }
  }

  lemma RevokingStaysOpen(db: Db, owner: Principal, first: nat)
    requires LabRowsAreOpen(db.rows, db.workspaces)
    ensures var after := RevokeWorkspace(db, owner, first).db; LabRowsAreOpen(after.rows, after.workspaces)
  {
    var w := OpenWorkspace(db.workspaces, owner);
    if w.Some? { ClosingStaysOpen(db, w.value, Revoked, first); }
  }

  lemma OthersStayOpen(db: Db, op: Op, first: nat)
    requires LabRowsAreOpen(db.rows, db.workspaces) && !op.OpDeploy? && !op.OpRetire?
    ensures var after := Execute(db, op, first).db; LabRowsAreOpen(after.rows, after.workspaces)
  {
    match op
    case OpCreateWorkspace(owner, org, now) => CreatingStaysOpen(db, owner, org, now, first);
    case OpGetWorkspace(owner, _) =>
      if OpenWorkspace(db.workspaces, owner).Some? {
        ExpiringStaysOpen(db, OpenWorkspace(db.workspaces, owner).value, first);
      }
    case OpRevokeWorkspace(owner) => RevokingStaysOpen(db, owner, first);
    case OpExpireWorkspace(w) => ExpiringStaysOpen(db, w, first);
    case _ =>
  }

  ghost predicate IsOpenState(s: System) {
    LabRowsAreOpen(s.db.rows, s.db.workspaces)
  }

  /** The step writes no lab row, or its workspace is open. */
  predicate WritesWhileOpen(s: System, step: LockStep) {
    step.Write? && step.t in s.txns && WritesLabRow(s.db, s.txns[step.t]) ==>
      IsOpenNow(s.db, s.txns[step.t].input.workspace.value)
  }

  lemma StepStaysOpenIff(parse: Parser, s: System, step: LockStep)
    requires SystemInv(s) && CanStep(parse, s, step) && IsOpenState(s)
    ensures IsOpenState(Stepped(parse, s, step)) <==> WritesWhileOpen(s, step)
  {
    match step
    case Write(t, version) =>
      var txn := s.txns[t];
      assert TxnInv(s.db, txn);
      if txn.DeployPlanned? && !IndexRefuses(Kept(s.db, txn.plan), txn.input.proxy, txn.input.environment) {
        if txn.input.workspace.Some? {
          LabWriteStaysOpenIff(s.db, txn.input, txn.plan, version);
        } else {
          StandardWriteStaysOpen(s.db, txn.input, txn.plan, version);
        }
      }
    case Elsewhere(op, first) => OthersStayOpen(s.db, op, first);
    case _ =>
  }

  ghost predicate IsOpenThroughout(parse: Parser, s: System, steps: seq<LockStep>)
    requires IsInterleaving(parse, s, steps)
    decreases |steps|
  {
    IsOpenState(s) && (steps != [] ==> IsOpenThroughout(parse, Stepped(parse, s, steps[0]), steps[1..]))
  }

  ghost predicate AllWriteWhileOpen(parse: Parser, s: System, steps: seq<LockStep>)
    requires IsInterleaving(parse, s, steps)
    decreases |steps|
  {
    steps != [] ==> WritesWhileOpen(s, steps[0]) && AllWriteWhileOpen(parse, Stepped(parse, s, steps[0]), steps[1..])
  }

  /** Throughout an interleaving active lab rows are in open workspaces exactly when every
      lab write finds its workspace open. */
  lemma {:induction false} LabRaceIff(parse: Parser, s: System, steps: seq<LockStep>)
    requires SystemInv(s) && IsOpenState(s) && IsInterleaving(parse, s, steps)
    ensures IsOpenThroughout(parse, s, steps) <==> AllWriteWhileOpen(parse, s, steps)
    decreases |steps|
  {
    if steps != [] {
      var next := Stepped(parse, s, steps[0]);
      StepKeepsSystem(parse, s, steps[0]);
      StepStaysOpenIff(parse, s, steps[0]);
      if IsOpenState(next) {
        LabRaceIff(parse, next, steps[1..]);
      } else {
        NotOpenHere(parse, next, steps[1..]);
      }
    }
  }

  lemma NotOpenHere(parse: Parser, s: System, steps: seq<LockStep>)
    requires IsInterleaving(parse, s, steps) && !IsOpenState(s)
    ensures !IsOpenThroughout(parse, s, steps)
  {}

  lemma RevokedWorkspace(db: Db, owner: Principal, w: nat, first: nat)
    requires OpenWorkspace(db.workspaces, owner) == Some(w)
    ensures var after := Execute(db, OpRevokeWorkspace(owner), first).db;
            && !IsOpenNow(after, w) && |after.rows| == |db.rows|
            && forall k :: 0 <= k < |db.rows| ==> after.rows[k] == db.rows[k] || after.rows[k] == db.rows[k].(status := Retired)
  {}

  lemma TwoSteps(parse: Parser, s: System, a: LockStep, b: LockStep)
    requires CanStep(parse, s, a) && CanStep(parse, Stepped(parse, s, a), b)
    ensures IsInterleaving(parse, s, [a, b])
    ensures Interleaved(parse, s, [a, b]) == Stepped(parse, Stepped(parse, s, a), b)
  {
    var between := Stepped(parse, s, a);
    var after := Stepped(parse, between, b);
    assert [a, b][1..] == [b] && [b][1..] == [];
    assert IsInterleaving(parse, after, []) && Interleaved(parse, after, []) == after;
    assert IsInterleaving(parse, between, [b]) && Interleaved(parse, between, [b]) == after;
  }

  lemma StillWritesLabRow(before: Db, after: Db, t: Txn)
    requires WritesLabRow(before, t) && |after.rows| == |before.rows|
    requires forall k :: 0 <= k < |before.rows| ==>
               after.rows[k] == before.rows[k] || after.rows[k] == before.rows[k].(status := Retired)
    ensures WritesLabRow(after, t)
  {
    forall k | 0 <= k < |after.rows| && Kept(after, t.plan)[k].status.Active?
      ensures Kept(after, t.plan)[k] == Kept(before, t.plan)[k]
    {}
  }

  /** The race is there: nothing keeps a revocation from coming between the read and the
      write of a lab deploy, and the write then leaves an active row in a closed workspace. */
  lemma RevocationRaces(parse: Parser, s: System, t: nat, owner: Principal, first: nat, version: nat)
    requires SystemInv(s) && IsOpenState(s) && t in s.txns && WritesLabRow(s.db, s.txns[t])
    requires OpenWorkspace(s.db.workspaces, owner) == s.txns[t].input.workspace
    ensures var steps := [Elsewhere(OpRevokeWorkspace(owner), first), Write(t, version)];
            IsInterleaving(parse, s, steps) && !IsOpenState(Interleaved(parse, s, steps))
  {
    var revoke, write := Elsewhere(OpRevokeWorkspace(owner), first), Write(t, version);
    var revoked := Stepped(parse, s, revoke);
    RevokedWorkspace(s.db, owner, s.txns[t].input.workspace.value, first);
    StepKeepsSystem(parse, s, revoke);
    StepStaysOpenIff(parse, s, revoke);
    StillWritesLabRow(s.db, revoked.db, s.txns[t]);
    StepStaysOpenIff(parse, revoked, write);
    TwoSteps(parse, s, revoke, write);
  }

  // --------------------------------------------------------------------- undisturbed

  /** The schedule is possible from the one system and ends in the other. */
  ghost predicate Ends(parse: Parser, s: System, steps: seq<LockStep>, last: System) {
    IsInterleaving(parse, s, steps) && Interleaved(parse, s, steps) == last
  }

  lemma StepInFront(parse: Parser, s: System, step: LockStep, next: System, rest: seq<LockStep>, steps: seq<LockStep>, last: System)
    requires CanStep(parse, s, step) && Stepped(parse, s, step) == next && Ends(parse, next, rest, last)
    requires steps == [step] + rest
    ensures Ends(parse, s, steps, last)
  {
    assert steps[1..] == rest;
  }

  function With(s: System, t: nat, txn: Txn): System {
    s.(txns := s.txns[t := txn])
  }

  lemma EndsWithout(s: System, t: nat, txn: Txn)
    requires t !in s.txns
    ensures With(s, t, txn).txns - {t} == s.txns
  {}

  /** A deploy that takes its locks, reads, and writes if it may. */
  function DeploySteps(db: Db, t: nat, i: DeployInput, now: int, version: nat): seq<LockStep> {
    [Begin(t, DeployStarted(i, now))] + ([Acquire(t)] + ([Acquire(t)] + DeployFromRead(db, t, i, now, version)))
  }

  function DeployFromRead(db: Db, t: nat, i: DeployInput, now: int, version: nat): seq<LockStep> {
    [Read(t)] + if PlanDeploy(db, i, now).Ok? then [Write(t, version)] else []
  }

  lemma ReadDeployEnds(parse: Parser, s: System, t: nat, i: DeployInput, now: int, version: nat)
    requires SystemInv(s) && t !in s.txns
    ensures Ends(
              parse, With(s, t, DeployAllHeld(i, now)), DeployFromRead(s.db, t, i, now, version),
              System(Deploy(s.db, i, now, version).db, s.txns))
  {
    var held, last := With(s, t, DeployAllHeld(i, now)), System(Deploy(s.db, i, now, version).db, s.txns);
    EndsWithout(s, t, DeployAllHeld(i, now));
    match PlanDeploy(s.db, i, now)
    case Err(_) => StepInFront(parse, held, Read(t), last, [], DeployFromRead(s.db, t, i, now, version), last);
    case Ok(plan) =>
      var planned := With(s, t, DeployPlanned(i, now, plan, s.db));
      PlanningHolds(s.db, i, now);
      NothingYet(s.db);
      DeployWriteIsAtomic(s.db, i, now, plan, s.db, version);
      EndsWithout(s, t, DeployPlanned(i, now, plan, s.db));
      assert Stepped(parse, held, Read(t)).txns == planned.txns;
      StepInFront(parse, planned, Write(t, version), last, [], [Write(t, version)], last);
      StepInFront(parse, held, Read(t), planned, [Write(t, version)], DeployFromRead(s.db, t, i, now, version), last);
  }

  /** A deploy that finds its locks free and is left alone ends as the whole transaction. */
  lemma DeployUndisturbed(parse: Parser, s: System, t: nat, i: DeployInput, now: int, version: nat)
    requires SystemInv(s) && t !in s.txns && IsFree(s.txns, SlotOf(i)) && IsFree(s.txns, PathOf(i))
    ensures Ends(
              parse, s, DeploySteps(s.db, t, i, now, version), System(Deploy(s.db, i, now, version).db, s.txns))
  {
    var last := System(Deploy(s.db, i, now, version).db, s.txns);
    var started, slot, held := With(s, t, DeployStarted(i, now)), With(s, t, DeploySlotHeld(i, now)), With(s, t, DeployAllHeld(i, now));
    var rest := DeployFromRead(s.db, t, i, now, version);
    ReadDeployEnds(parse, s, t, i, now, version);
    assert Stepped(parse, slot, Acquire(t)).txns == held.txns;
    StepInFront(parse, slot, Acquire(t), held, rest, [Acquire(t)] + rest, last);
    assert Stepped(parse, started, Acquire(t)).txns == slot.txns;
    StepInFront(parse, started, Acquire(t), slot, [Acquire(t)] + rest, [Acquire(t)] + ([Acquire(t)] + rest), last);
    StepInFront(
      parse, s, Begin(t, DeployStarted(i, now)), started, [Acquire(t)] + ([Acquire(t)] + rest),
      DeploySteps(s.db, t, i, now, version), last);
  }

  /** A retire that looks its row up, takes its lock, reads again and writes. */
  function RetireSteps(db: Db, t: nat, id: nat, allow: bool, version: nat): seq<LockStep> {
    [Begin(t, RetireStarted(id, allow))]
    + ([Read(t)] + if PlanRetire(db, id, allow).Ok? then [Acquire(t)] + ([Read(t)] + [Write(t, version)]) else [])
  }

  lemma SeenRetireEnds(parse: Parser, s: System, t: nat, id: nat, allow: bool, version: nat)
    requires t !in s.txns && PlanRetire(s.db, id, allow).Ok? && IsFree(s.txns, SlotOfRow(s.db.rows[id]))
    ensures Ends(
              parse, With(s, t, RetireSeen(id, allow, SlotOfRow(s.db.rows[id]))), [Acquire(t)] + ([Read(t)] + [Write(t, version)]),
              System(Retire(s.db, id, allow, version).db, s.txns))
  {
    var slot, last := SlotOfRow(s.db.rows[id]), System(Retire(s.db, id, allow, version).db, s.txns);
    var seen, held, planned :=
      With(s, t, RetireSeen(id, allow, slot)), With(s, t, RetireSlotHeld(id, allow, slot)), With(s, t, RetirePlanned(id, allow, slot));
    EndsWithout(s, t, RetirePlanned(id, allow, slot));
    StepInFront(parse, planned, Write(t, version), last, [], [Write(t, version)], last);
    assert Stepped(parse, held, Read(t)).txns == planned.txns;
    StepInFront(parse, held, Read(t), planned, [Write(t, version)], [Read(t)] + [Write(t, version)], last);
    assert Stepped(parse, seen, Acquire(t)).txns == held.txns;
    StepInFront(
      parse, seen, Acquire(t), held, [Read(t)] + [Write(t, version)], [Acquire(t)] + ([Read(t)] + [Write(t, version)]), last);
  }

  /** So does a retire. */
  lemma RetireUndisturbed(parse: Parser, s: System, t: nat, id: nat, allow: bool, version: nat)
    requires t !in s.txns && (id < |s.db.rows| ==> IsFree(s.txns, SlotOfRow(s.db.rows[id])))
    ensures Ends(
              parse, s, RetireSteps(s.db, t, id, allow, version), System(Retire(s.db, id, allow, version).db, s.txns))
  {
    var started, last := With(s, t, RetireStarted(id, allow)), System(Retire(s.db, id, allow, version).db, s.txns);
    EndsWithout(s, t, RetireStarted(id, allow));
    var rest := if PlanRetire(s.db, id, allow).Ok? then [Acquire(t)] + ([Read(t)] + [Write(t, version)]) else [];
    if PlanRetire(s.db, id, allow).Ok? {
      var seen := With(s, t, RetireSeen(id, allow, SlotOfRow(s.db.rows[id])));
      SeenRetireEnds(parse, s, t, id, allow, version);
      assert Stepped(parse, started, Read(t)).txns == seen.txns;
      StepInFront(parse, started, Read(t), seen, rest, [Read(t)] + rest, last);
    } else {
      StepInFront(parse, started, Read(t), last, rest, [Read(t)] + rest, last);
    }
    StepInFront(
      parse, s, Begin(t, RetireStarted(id, allow)), started, [Read(t)] + rest, RetireSteps(s.db, t, id, allow, version), last);
  }
}
