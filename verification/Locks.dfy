/** Deploys and retires as they really interleave: each takes its advisory locks, reads
    the committed state, and writes later, with other transactions in between. */
module Locks {
  import opened Schema
  import opened Bundle
  import opened Ledger
  import opened LedgerInvariants
  import opened ControlPlane

  /** The two advisory locks; `scope` is None for the standard scope. */
  datatype Lock =
    | SlotLock(scope: Option<nat>, proxy: string, environment: string)
    | PathLock(scope: Option<nat>, environment: string)

  datatype Txn =
    | DeployStarted(input: DeployInput, now: int)
    | DeploySlotHeld(input: DeployInput, now: int)
    | DeployAllHeld(input: DeployInput, now: int)
    | DeployPlanned(input: DeployInput, now: int, plan: DeployPlan, read: Db)  // with the state it read
    | RetireStarted(id: nat, allow: bool)
    | RetireSeen(id: nat, allow: bool, slot: Lock)
    | RetireSlotHeld(id: nat, allow: bool, slot: Lock)
    | RetirePlanned(id: nat, allow: bool, slot: Lock)

  datatype System = System(db: Db, txns: map<nat, Txn>)

  function SlotOf(i: DeployInput): Lock {
    SlotLock(i.workspace, i.proxy, i.environment)
  }

  function PathOf(i: DeployInput): Lock {
    PathLock(i.workspace, i.environment)
  }

  function SlotOfRow(row: Deployment): Lock {
    SlotLock(row.workspace, row.proxy, row.environment)
  }

  function Held(t: Txn): set<Lock> {
    match t
    case DeploySlotHeld(i, _) => {SlotOf(i)}
    case DeployAllHeld(i, _) => {SlotOf(i), PathOf(i)}
    case DeployPlanned(i, _, _, _) => {SlotOf(i), PathOf(i)}
    case RetireSlotHeld(_, _, slot) => {slot}
    case RetirePlanned(_, _, slot) => {slot}
    case _ => {}
  }

  /** The lock a transaction asks for next. */
  function Wants(t: Txn): Option<Lock> {
    match t
    case DeployStarted(i, _) => Some(SlotOf(i))
    case DeploySlotHeld(i, _) => Some(PathOf(i))
    case RetireSeen(_, _, slot) => Some(slot)
    case _ => None
  }

  predicate IsFree(txns: map<nat, Txn>, lock: Lock) {
    forall t :: t in txns ==> lock !in Held(txns[t])
  }

  datatype LockStep =
    | Begin(t: nat, txn: Txn)
    | Acquire(t: nat)
    | Read(t: nat)
    | Write(t: nat, version: nat)
    | Elsewhere(op: Op, first: nat)   // any other transaction, in one step

  predicate IsBeginning(txn: Txn) {
    txn.DeployStarted? || txn.RetireStarted?
  }

  ghost predicate CanStep(parse: Parser, s: System, step: LockStep) {
    match step
    case Begin(t, txn) => t !in s.txns && IsBeginning(txn)
    case Acquire(t) => t in s.txns && Wants(s.txns[t]).Some? && IsFree(s.txns, Wants(s.txns[t]).value)
    case Read(t) => t in s.txns && (s.txns[t].DeployAllHeld? || s.txns[t].RetireStarted? || s.txns[t].RetireSlotHeld?)
    case Write(t, _) =>
      && t in s.txns
      && (s.txns[t].DeployPlanned? || s.txns[t].RetirePlanned?)
      && (s.txns[t].DeployPlanned? && s.txns[t].plan.previous.Some? ==> s.txns[t].plan.previous.value < |s.db.rows|)
      && (s.txns[t].RetirePlanned? ==> s.txns[t].id < |s.db.rows|)
    case Elsewhere(op, _) => !op.OpDeploy? && !op.OpRetire? && IsPermitted(parse, s.db, op)
  }

  function Granted(t: Txn): Txn
    requires Wants(t).Some?
  {
    match t
    case DeployStarted(i, now) => DeploySlotHeld(i, now)
    case DeploySlotHeld(i, now) => DeployAllHeld(i, now)
    case RetireSeen(id, allow, slot) => RetireSlotHeld(id, allow, slot)
  }

  /** What a transaction knows after reading the committed state; None when it throws. */
  function Informed(db: Db, t: Txn): Option<Txn>
    requires t.DeployAllHeld? || t.RetireStarted? || t.RetireSlotHeld?
  {
    match t
    case DeployAllHeld(i, now) =>
      (match PlanDeploy(db, i, now)
       case Ok(plan) => Some(DeployPlanned(i, now, plan, db))
       case Err(_) => None)
    case RetireStarted(id, allow) =>
      if PlanRetire(db, id, allow).Ok? then Some(RetireSeen(id, allow, SlotOfRow(db.rows[id]))) else None
    case RetireSlotHeld(id, allow, slot) =>
      if id < |db.rows| && db.rows[id].status.Active? then Some(RetirePlanned(id, allow, slot)) else None
  }

  /** The writes, on the state as it is now and not as it was read; the unique index may still refuse a deploy. */
  function Written(db: Db, t: Txn, version: nat): Db
    requires t.DeployPlanned? || t.RetirePlanned?
    requires t.DeployPlanned? && t.plan.previous.Some? ==> t.plan.previous.value < |db.rows|
    requires t.RetirePlanned? ==> t.id < |db.rows|
  {
    if t.RetirePlanned? then CommitRetire(db, t.id, version).db
    else if IndexRefuses(Kept(db, t.plan), t.input.proxy, t.input.environment) then db
    else CommitDeploy(db, t.input, t.plan, version).db
  }

  /** Committing or throwing releases the locks. */
  ghost function Stepped(parse: Parser, s: System, step: LockStep): System
    requires CanStep(parse, s, step)
  {
    match step
    case Begin(t, txn) => s.(txns := s.txns[t := txn])
    case Acquire(t) => s.(txns := s.txns[t := Granted(s.txns[t])])
    case Read(t) =>
      (match Informed(s.db, s.txns[t])
       case Some(txn) => s.(txns := s.txns[t := txn])
       case None => s.(txns := s.txns - {t}))
    case Write(t, version) => System(Written(s.db, s.txns[t], version), s.txns - {t})
    case Elsewhere(op, first) => s.(db := Execute(s.db, op, first).db)
  }

  // -------------------------------------------------------------------- invariant

  ghost predicate RevisionsExist(rows: seq<Deployment>, proxies: map<string, Proxy>) {
    forall k :: 0 <= k < |rows| ==> HasRevision(proxies, rows[k].proxy, rows[k].revision)
  }

  ghost predicate TablesInv(db: Db) {
    RevisionsExist(db.rows, db.proxies) && SlotsAreUnique(db.rows) && PathsAreUnique(db.rows, db.proxies)
  }

  /** No lock is held twice. */
  ghost predicate Exclusion(txns: map<nat, Txn>) {
    forall t, u :: t in txns && u in txns && t != u ==> Held(txns[t]) !! Held(txns[u])
  }

  /** What a planned deploy read and can still rely on when it writes. */
  ghost predicate PlanHolds(db: Db, i: DeployInput, plan: DeployPlan) {
    && HasRevision(db.proxies, i.proxy, i.revision)
    && !HasConflict(db, i, RevisionOf(db.proxies, i.proxy, i.revision).basePath)
    && (forall k: nat :: k < |db.rows| && IsSlot(db.rows[k], i.proxy, i.environment, i.workspace) ==> plan.previous == Some(k))
    && (plan.previous.Some? ==> plan.previous.value < |db.rows| && SlotOfRow(db.rows[plan.previous.value]) == SlotOf(i))
    && (plan.previous.Some? && i.workspace.None? ==> db.rows[plan.previous.value].status.Active?)
  }

  /** What a planned deploy was told when it read, and what it can still rely on. */
  ghost predicate DeployInv(db: Db, i: DeployInput, now: int, plan: DeployPlan, read: Db) {
    PlanDeploy(read, i, now) == Ok(plan) && Evolves(read, db) && PlanHolds(db, i, plan)
  }

  predicate IsProtected(db: Db, id: nat, allow: bool)
    requires id < |db.rows|
  {
    db.rows[id].proxy in db.proxies && db.proxies[db.rows[id].proxy].systemManaged && !allow
  }

  /** A retire that has seen its row holds the row's slot and may retire it. */
  ghost predicate RetireInv(db: Db, id: nat, allow: bool, slot: Lock) {
    id < |db.rows| && slot == SlotOfRow(db.rows[id]) && !IsProtected(db, id, allow)
  }

  ghost predicate TxnInv(db: Db, t: Txn) {
    match t
    case DeployPlanned(i, now, plan, read) => DeployInv(db, i, now, plan, read)
    case RetireSeen(id, allow, slot) => RetireInv(db, id, allow, slot)
    case RetireSlotHeld(id, allow, slot) => RetireInv(db, id, allow, slot)
    case RetirePlanned(id, allow, slot) =>
      RetireInv(db, id, allow, slot) && (db.rows[id].workspace.None? ==> db.rows[id].status.Active?)
    case _ => true
  }

  ghost predicate SystemInv(s: System) {
    && TablesInv(s.db) && Exclusion(s.txns)
    && forall t :: t in s.txns ==> TxnInv(s.db, s.txns[t])
  }

  // ------------------------------------------------------------- other transactions

  /** What every other transaction does to the rows: at most it retires lab rows. */
  ghost predicate RetiresLabRows(before: seq<Deployment>, after: seq<Deployment>) {
    && |after| == |before|
    && forall k :: 0 <= k < |before| ==>
         after[k] == before[k] || (before[k].workspace.Some? && after[k] == before[k].(status := Retired))
  }

  lemma OthersRetireLabRows(db: Db, op: Op, first: nat)
    requires !op.OpDeploy? && !op.OpRetire?
    ensures RetiresLabRows(db.rows, Execute(db, op, first).db.rows)
  {}

  lemma BasePathsStay(before: Db, after: Db, k: nat)
    requires RevisionsExist(before.rows, before.proxies) && ProxiesEvolve(before.proxies, after.proxies)
    requires k < |before.rows| && k < |after.rows| && RowEvolves(before.rows[k], after.rows[k])
    ensures BasePathOf(after.proxies, after.rows[k]) == BasePathOf(before.proxies, before.rows[k])
    ensures HasRevision(after.proxies, after.rows[k].proxy, after.rows[k].revision)
  {}

  lemma OthersKeepTables(before: Db, after: Db)
    requires TablesInv(before) && ProxiesEvolve(before.proxies, after.proxies) && RetiresLabRows(before.rows, after.rows)
    ensures TablesInv(after)
  {
    forall k: nat | k < |before.rows|
      ensures BasePathOf(after.proxies, after.rows[k]) == BasePathOf(before.proxies, before.rows[k])
      ensures HasRevision(after.proxies, after.rows[k].proxy, after.rows[k].revision)
    {
      BasePathsStay(before, after, k);
    }
  }

  lemma OthersKeepPlan(before: Db, after: Db, i: DeployInput, plan: DeployPlan)
    requires TablesInv(before) && ProxiesEvolve(before.proxies, after.proxies) && RetiresLabRows(before.rows, after.rows)
    requires PlanHolds(before, i, plan)
    ensures PlanHolds(after, i, plan)
  {}

  lemma OthersKeepTxn(before: Db, after: Db, t: Txn)
    requires TablesInv(before) && Evolves(before, after) && RetiresLabRows(before.rows, after.rows) && TxnInv(before, t)
    ensures TxnInv(after, t)
  {
    if t.DeployPlanned? {
      OthersKeepPlan(before, after, t.input, t.plan);
      EvolvesTransitively(t.read, before, after);
    }
  }

  // --------------------------------------------------------------------- the writes

  lemma RetiringKeepsTables(db: Db, id: nat, version: nat)
    requires TablesInv(db) && id < |db.rows|
    ensures TablesInv(CommitRetire(db, id, version).db)
  {}

  /** A planned deploy that the index admits keeps both uniqueness rules. */
  lemma DeployingKeepsTables(db: Db, i: DeployInput, plan: DeployPlan, version: nat)
    requires TablesInv(db) && PlanHolds(db, i, plan) && !IndexRefuses(Kept(db, plan), i.proxy, i.environment)
    ensures TablesInv(CommitDeploy(db, i, plan, version).db)
  {
    var rows := Kept(db, plan) + [NewRow(i, plan)];
    assert CommitDeploy(db, i, plan, version).db.rows == rows;
    var last := |db.rows|;
    forall k: nat | k < last && rows[k].status.Active? && rows[k].environment == i.environment
      ensures rows[k].proxy != i.proxy
      ensures rows[k].workspace == i.workspace ==> BasePathOf(db.proxies, rows[k]) != BasePathOf(db.proxies, rows[last])
    {
      assert Kept(db, plan)[k] == rows[k] && rows[k] == db.rows[k];
    }
  }

  lemma WritingKeepsTables(db: Db, t: Txn, version: nat)
    requires TablesInv(db) && TxnInv(db, t) && (t.DeployPlanned? || t.RetirePlanned?)
    ensures TablesInv(Written(db, t, version))
  {
    if t.RetirePlanned? {
      RetiringKeepsTables(db, t.id, version);
    } else if !IndexRefuses(Kept(db, t.plan), t.input.proxy, t.input.environment) {
      DeployingKeepsTables(db, t.input, t.plan, version);
    }
  }

  /** One transaction's write, seen by another that holds other locks: rows of the
      other's slot stay as they are, and none is added to its slot or path. */
  ghost predicate LeavesAlone(before: seq<Deployment>, after: seq<Deployment>, locks: set<Lock>) {
    && |before| <= |after|
    && (forall k :: 0 <= k < |before| ==> RowEvolves(before[k], after[k]))
    && (forall k :: 0 <= k < |before| && SlotOfRow(before[k]) in locks ==> after[k] == before[k])
    && (forall k :: |before| <= k < |after| ==>
          SlotOfRow(after[k]) !in locks && PathLock(after[k].workspace, after[k].environment) !in locks)
  }

  lemma WritesLeaveOthersAlone(db: Db, t: Txn, version: nat, locks: set<Lock>)
    requires TxnInv(db, t) && (t.DeployPlanned? || t.RetirePlanned?) && Held(t) !! locks
    ensures LeavesAlone(db.rows, Written(db, t, version).rows, locks)
    ensures Written(db, t, version).proxies == db.proxies
  {}

  lemma PlanSurvivesWrites(before: Db, after: Db, i: DeployInput, plan: DeployPlan)
    requires after.proxies == before.proxies && LeavesAlone(before.rows, after.rows, {SlotOf(i), PathOf(i)})
    requires PlanHolds(before, i, plan)
    ensures PlanHolds(after, i, plan)
  {}

  lemma TxnSurvivesWrites(before: Db, after: Db, t: Txn)
    requires after.proxies == before.proxies && Evolves(before, after)
    requires LeavesAlone(before.rows, after.rows, Held(t)) && TxnInv(before, t)
    ensures TxnInv(after, t)
  {
    if t.DeployPlanned? {
      PlanSurvivesWrites(before, after, t.input, t.plan);
      EvolvesTransitively(t.read, before, after);
    }
  }

  // ---------------------------------------------------------------------- the steps

  lemma PlanningHolds(db: Db, i: DeployInput, now: int)
    requires TablesInv(db) && PlanDeploy(db, i, now).Ok?
    ensures PlanHolds(db, i, PlanDeploy(db, i, now).value)
  {}

  lemma NothingYet(db: Db)
    ensures Evolves(db, db)
  {}

  lemma ExclusionAfter(txns: map<nat, Txn>, t: nat, txn: Txn)
    requires Exclusion(txns)
    requires forall u :: u in txns && u != t ==> Held(txns[u]) !! Held(txn)
    ensures Exclusion(txns[t := txn])
  {}

  lemma FreeLockIsExclusive(txns: map<nat, Txn>, t: nat)
    requires Exclusion(txns) && t in txns && Wants(txns[t]).Some? && IsFree(txns, Wants(txns[t]).value)
    ensures forall u :: u in txns && u != t ==> Held(txns[u]) !! Held(Granted(txns[t]))
  {}

  lemma AcquiringKeepsSystem(parse: Parser, s: System, t: nat)
    requires SystemInv(s) && CanStep(parse, s, Acquire(t))
    ensures SystemInv(Stepped(parse, s, Acquire(t)))
  {
    FreeLockIsExclusive(s.txns, t);
    ExclusionAfter(s.txns, t, Granted(s.txns[t]));
  }

  lemma ReadingKeepsSystem(parse: Parser, s: System, t: nat)
    requires SystemInv(s) && CanStep(parse, s, Read(t))
    ensures SystemInv(Stepped(parse, s, Read(t)))
  {
    var informed := Informed(s.db, s.txns[t]);
    if s.txns[t].DeployAllHeld? && informed.Some? {
      PlanningHolds(s.db, s.txns[t].input, s.txns[t].now);
      NothingYet(s.db);
    }
    if informed.Some? {
      assert Held(informed.value) <= Held(s.txns[t]);
      ExclusionAfter(s.txns, t, informed.value);
    }
  }

  lemma WritingKeepsSystem(parse: Parser, s: System, t: nat, version: nat)
    requires SystemInv(s) && CanStep(parse, s, Write(t, version))
    ensures SystemInv(Stepped(parse, s, Write(t, version)))
  {
    var after := Written(s.db, s.txns[t], version);
    WritingKeepsTables(s.db, s.txns[t], version);
    WritingEvolves(s.db, s.txns[t], version);
    forall u | u in s.txns && u != t ensures TxnInv(after, s.txns[u]) {
      WritesLeaveOthersAlone(s.db, s.txns[t], version, Held(s.txns[u]));
      TxnSurvivesWrites(s.db, after, s.txns[u]);
    }
  }

  lemma OtherKeepsSystem(parse: Parser, s: System, op: Op, first: nat)
    requires SystemInv(s) && CanStep(parse, s, Elsewhere(op, first))
    ensures SystemInv(Stepped(parse, s, Elsewhere(op, first)))
  {
    var after := Execute(s.db, op, first).db;
    OthersRetireLabRows(s.db, op, first);
    StepEvolves(parse, s.db, op, first);
    OthersKeepTables(s.db, after);
    forall t | t in s.txns ensures TxnInv(after, s.txns[t]) {
      OthersKeepTxn(s.db, after, s.txns[t]);
    }
  }

  /** Every interleaving keeps at most one active row per slot and per base path. */
  lemma StepKeepsSystem(parse: Parser, s: System, step: LockStep)
    requires SystemInv(s) && CanStep(parse, s, step)
    ensures SystemInv(Stepped(parse, s, step))
  {
    match step
    case Begin(t, txn) => ExclusionAfter(s.txns, t, txn);
    case Acquire(t) => AcquiringKeepsSystem(parse, s, t);
    case Read(t) => ReadingKeepsSystem(parse, s, t);
    case Write(t, version) => WritingKeepsSystem(parse, s, t, version);
    case Elsewhere(op, first) => OtherKeepsSystem(parse, s, op, first);
  }

  ghost predicate IsInterleaving(parse: Parser, s: System, steps: seq<LockStep>)
    decreases |steps|
  {
    steps != [] ==> CanStep(parse, s, steps[0]) && IsInterleaving(parse, Stepped(parse, s, steps[0]), steps[1..])
  }

  ghost function Interleaved(parse: Parser, s: System, steps: seq<LockStep>): System
    requires IsInterleaving(parse, s, steps)
    decreases |steps|
  {
    if steps == [] then s else Interleaved(parse, Stepped(parse, s, steps[0]), steps[1..])
  }

  lemma WritingEvolves(db: Db, t: Txn, version: nat)
    requires TxnInv(db, t) && (t.DeployPlanned? || t.RetirePlanned?)
    ensures Evolves(db, Written(db, t, version))
  {}

  lemma StepOnlyMovesForward(parse: Parser, s: System, step: LockStep)
    requires SystemInv(s) && CanStep(parse, s, step)
    ensures Evolves(s.db, Stepped(parse, s, step).db)
  {
    match step
    case Write(t, version) => WritingEvolves(s.db, s.txns[t], version);
    case Elsewhere(op, first) => StepEvolves(parse, s.db, op, first);
    case _ =>
  }

  /** Over every interleaving: uniqueness holds at the end, and no row that was ever
      retired is active again. */
  lemma {:induction false} InterleavingsAreSafe(parse: Parser, s: System, steps: seq<LockStep>)
    requires SystemInv(s) && IsInterleaving(parse, s, steps)
    ensures SystemInv(Interleaved(parse, s, steps)) && Evolves(s.db, Interleaved(parse, s, steps).db)
    decreases |steps|
  {
    if steps != [] {
      var next := Stepped(parse, s, steps[0]);
      StepKeepsSystem(parse, s, steps[0]);
      StepOnlyMovesForward(parse, s, steps[0]);
      InterleavingsAreSafe(parse, next, steps[1..]);
      EvolvesTransitively(s.db, next.db, Interleaved(parse, s, steps).db);
    }
  }

  // --------------------------------------------------------------- deadlock freedom

  predicate IsWaiting(txns: map<nat, Txn>, t: nat)
    requires t in txns
  {
    Wants(txns[t]).Some? && !IsFree(txns, Wants(txns[t]).value)
  }

  /** The step of its own that a transaction takes next. */
  function NextStep(t: nat, txn: Txn, version: nat): LockStep {
    if Wants(txn).Some? then Acquire(t)
    else if txn.DeployPlanned? || txn.RetirePlanned? then Write(t, version)
    else Read(t)
  }

  predicate AsksForSlots(t: Txn) {
    (t.RetireSeen? || t.RetireSlotHeld? || t.RetirePlanned?) ==> t.slot.SlotLock?
  }

  lemma WaitingEnds(txns: map<nat, Txn>, t: nat) returns (u: nat)
    requires t in txns && forall v :: v in txns ==> AsksForSlots(txns[v])
    ensures u in txns && !IsWaiting(txns, u)
  {
    u := t;
    if IsWaiting(txns, u) {
      u :| u in txns && Wants(txns[t]).value in Held(txns[u]);
      if IsWaiting(txns, u) {
        var path := Wants(txns[u]).value;
        u :| u in txns && path in Held(txns[u]);
      }
    }
  }

  lemma NothingElseBlocks(parse: Parser, s: System, u: nat, version: nat)
    requires u in s.txns && TxnInv(s.db, s.txns[u]) && !IsWaiting(s.txns, u)
    ensures CanStep(parse, s, NextStep(u, s.txns[u], version))
  {}

  /** Locks are taken slot before path, so every chain of waiting ends, after two steps at
      most, at a transaction that can go on: the system never deadlocks. */
  lemma SomeoneAdvances(parse: Parser, s: System, t: nat, version: nat) returns (u: nat)
    requires SystemInv(s) && t in s.txns
    ensures u in s.txns && CanStep(parse, s, NextStep(u, s.txns[u], version))
  {
    forall v | v in s.txns ensures AsksForSlots(s.txns[v]) {
      assert TxnInv(s.db, s.txns[v]);
    }
    u := WaitingEnds(s.txns, t);
    NothingElseBlocks(parse, s, u, version);
  }

  // -------------------------------------------------------------------- atomicity

  lemma PromotionsStay(before: Db, after: Db, i: DeployInput, stage: Stage, region: string)
    requires Evolves(before, after) && HasPromotion(before, i, stage, region)
    ensures HasPromotion(after, i, stage, region)
  {}

  /** Every refusal before the conflict check depends on things that never change, on the
      promotion, which stays, or on the workspace. */
  lemma EarlyChecksStay(read: Db, db: Db, i: DeployInput, now: int, plan: DeployPlan)
    requires PlanDeploy(read, i, now) == Ok(plan) && Evolves(read, db) && PlanHolds(db, i, plan)
    requires i.workspace.Some? ==> i.proxy in db.proxies && i.environment in db.environments && LabDeploymentIsValid(db, i, now)
    ensures var previous := FindActive(db.rows, i.proxy, i.environment, i.workspace);
            PlanDeploy(db, i, now)
            == if BreaksUniqueIndex(db, i) then Err(UniqueViolation)
               else Ok(DeployPlan(plan.upstream, previous, previous.Some? && i.revision < db.rows[previous.value].revision))
  {
    assert ProxyEvolves(read.proxies[i.proxy], db.proxies[i.proxy]);
    var required := if i.workspace.Some? then None else PreviousStage(read.environments[i.environment].stage);
    if required.Some? {
      PromotionsStay(read, db, i, required.value, read.environments[i.environment].region);
    }
  }

  lemma RollbackStays(read: Db, db: Db, i: DeployInput, now: int, plan: DeployPlan)
    requires PlanDeploy(read, i, now) == Ok(plan) && Evolves(read, db)
    ensures plan.previous.Some? ==>
              && plan.previous.value < |db.rows|
              && (plan.rollback <==> i.revision < db.rows[plan.previous.value].revision)
    ensures plan.previous.None? ==> !plan.rollback
  {}

  /** What the locks do not protect still stands: a lab deploy's workspace, and the row it
      replaces. */
  predicate DeployStands(db: Db, i: DeployInput, now: int, plan: DeployPlan) {
    i.workspace.Some? ==>
      && i.proxy in db.proxies && i.environment in db.environments && LabDeploymentIsValid(db, i, now)
      && (plan.previous.Some? ==> plan.previous.value < |db.rows| && db.rows[plan.previous.value].status.Active?)
  }

  /** Then a planned deploy, whatever has happened since it read, writes what the whole
      transaction would do if it ran at this moment: it is refused exactly by the index, and
      otherwise commits the same rows, audit event and change. In the standard scope the
      locks alone suffice. */
  lemma DeployWriteIsAtomic(db: Db, i: DeployInput, now: int, plan: DeployPlan, read: Db, version: nat)
    requires TablesInv(db) && DeployInv(db, i, now, plan, read) && DeployStands(db, i, now, plan)
    ensures Written(db, DeployPlanned(i, now, plan, read), version) == Deploy(db, i, now, version).db
    ensures PlanDeploy(db, i, now) == if BreaksUniqueIndex(db, i) then Err(UniqueViolation) else Ok(plan)
  {
    EarlyChecksStay(read, db, i, now, plan);
    RollbackStays(read, db, i, now, plan);
    assert FindActive(db.rows, i.proxy, i.environment, i.workspace) == plan.previous;
    IndexAgrees(db, i, Kept(db, plan));
  }

  /** For a lab deploy the locks are not enough: resets, expiries and revocations take
      neither. Its write is what the whole transaction would do now exactly when the
      workspace is still valid and the row to be replaced is still active. */
  lemma LabWriteIsAtomicIff(db: Db, i: DeployInput, now: int, plan: DeployPlan, read: Db)
    requires TablesInv(db) && DeployInv(db, i, now, plan, read) && i.workspace.Some? && !BreaksUniqueIndex(db, i)
    ensures i.proxy in db.proxies && i.environment in db.environments
    ensures PlanDeploy(db, i, now) == Ok(plan)
       <==> LabDeploymentIsValid(db, i, now) && (plan.previous.Some? ==> db.rows[plan.previous.value].status.Active?)
  {
    RollbackStays(read, db, i, now, plan);
    if LabDeploymentIsValid(db, i, now) {
      EarlyChecksStay(read, db, i, now, plan);
    }
  }
}
