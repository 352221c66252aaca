/** Whole runs of the store: any sequence of submitted commands, verifications and reopenings,
    starting empty or from imported rows. */
module StoreHistory {
  import opened StoreConsistency
  import opened StoreModel
  import opened StoreRecovery
  import opened StoreRepair
  import opened StoreTables
  import opened Wrappers

  datatype Step =
    | Submit(env: CommandEnvelope, eventId: string)
    | Check(repair: bool, stamp: RepairStamp)
    | Reopen(stamp: RepairStamp, supply: nat -> FreshIds, now: nat)

  /** The tables after one step; a rejected step leaves what its transaction rolled back to. */
  function AfterStep(db: Database, step: Step): Database {
    match step
    case Submit(env, eventId) => (match Execute(db, env, eventId) case Failure(_) => db case Success(c) => c.db)
    case Check(repair, stamp) => (match Verify(db, repair, stamp) case Failure(_) => db case Success(v) => v.db)
    case Reopen(stamp, supply, now) => Open(db, stamp, supply, now).db
  }

  function RunOf(db: Database, steps: seq<Step>): Database {
    if |steps| == 0 then db else AfterStep(RunOf(db, steps[..|steps|-1]), steps[|steps|-1])
  }

  /** Submitted identifiers are arbitrary, a generated event id is well-formed, and those that
      recovery generates are fresh. */
  ghost predicate FreshStep(db: Database, step: Step) {
    match step
    case Submit(_, eventId) => UuidV7(eventId)
    case Check(_, _) => true
    case Reopen(_, supply, _) => FreshSupply(db, supply, |StartedEffects(db)|)
  }

  ghost predicate FreshRun(db: Database, steps: seq<Step>) {
    |steps| > 0 ==> FreshRun(db, steps[..|steps|-1]) && FreshStep(RunOf(db, steps[..|steps|-1]), steps[|steps|-1])
  }

  // ------------------------------------------------- the log only grows

  ghost predicate Extends(db: Database, after: Database) {
    && |db.events| <= |after.events| && (forall i :: 0 <= i < |db.events| ==> after.events[i] == db.events[i])
    && (forall id :: id in db.receipts ==> id in after.receipts && after.receipts[id] == db.receipts[id])
  }

  lemma ExtendsTransitive(a: Database, b: Database, c: Database)
    requires Extends(a, b) && Extends(b, c)
    ensures Extends(a, c)
  {
  }

  /** A command not seen before appends one event, at the revision after the expected one. */
  ghost predicate AppendsOne(db: Database, env: CommandEnvelope, c: Committed) {
    && |c.db.events| == |db.events| + 1 && c.db.events[..|db.events|] == db.events
    && (var e := c.db.events[|db.events|];
        && e.request.aggregateType == AggregateTypeOf(env.command) && e.request.aggregateId == env.aggregateId
        && e.request.commandId == env.commandId && e.request.digest == DigestOf(env)
        && e.revision == env.expectedRevision + 1
        && (e.payload.EffectOutcomeUnknown? <==> env.command == OnSideEffect(MarkUnknown))
        && c.db.receipts == db.receipts[env.commandId := RowFor(e)]
        && c.receipt == CommandReceipt(env.commandId, env.aggregateId, e.revision, e.sequence, e.sequence, false))
  }

  lemma BuiltProjectPayload(id: string, command: ProjectCommand, current: Option<Project>, at: nat)
    requires BuildProject(id, command, current, at).Success?
    ensures var m := BuildProject(id, command, current, at).value;
            m.project.revision == (if current.Some? then current.value.revision else 0) + 1
            && !m.payload.EffectOutcomeUnknown?
  {
  }

  lemma BuiltEffectPayload(id: string, command: SideEffectCommand, current: Option<SideEffect>, at: nat)
    requires BuildEffect(id, command, current, at).Success?
    ensures var m := BuildEffect(id, command, current, at).value;
            m.effect.revision == (if current.Some? then current.value.revision else 0) + 1
            && (m.payload.EffectOutcomeUnknown? <==> command == MarkUnknown)
  {
  }

  lemma ProjectCommandAppends(db: Database, env: CommandEnvelope, command: ProjectCommand, eventId: string)
    requires env.command == OnProject(command) && ExecuteProject(db, env, command, eventId).Success?
    ensures AppendsOne(db, env, ExecuteProject(db, env, command, eventId).value)
  {
    hide ExecuteProject, BuildProject, ValidProject, ApplyProject;
    ProjectCommitted(db, env, command, eventId);
    BuiltProjectPayload(env.aggregateId, command, CurrentProject(db, env.aggregateId), env.occurredAt);
  }

  lemma EffectCommandAppends(db: Database, env: CommandEnvelope, command: SideEffectCommand, eventId: string)
    requires env.command == OnSideEffect(command) && ExecuteEffect(db, env, command, eventId).Success?
    ensures AppendsOne(db, env, ExecuteEffect(db, env, command, eventId).value)
  {
    hide ExecuteEffect, BuildEffect, ValidSideEffect, ApplyEffect;
    EffectCommitted(db, env, command, eventId);
    BuiltEffectPayload(env.aggregateId, command, CurrentEffect(db, env.aggregateId), env.occurredAt);
  }

  /** A successful command either is answered from its receipt, changing nothing, or commits. */
  lemma ExecuteOutcome(db: Database, env: CommandEnvelope, eventId: string)
    requires Execute(db, env, eventId).Success?
    ensures var c := Execute(db, env, eventId).value;
            && c.receipt.replayed == (env.commandId in db.receipts)
            && (c.receipt.replayed ==> c.db == db)
            && (!c.receipt.replayed ==> AppendsOne(db, env, c) && env.command != OnSideEffect(MarkUnknown))
  {
    hide ExecuteProject, ExecuteEffect, ValidateEnvelope, AppendsOne;
    if env.commandId !in db.receipts {
      match env.command {
        case OnProject(command) =>
          ProjectCommandAppends(db, env, command, eventId);
          ReceiptIsOriginal(db, env, Execute(db, env, eventId).value);
        case OnSideEffect(command) =>
          EffectCommandAppends(db, env, command, eventId);
          ReceiptIsOriginal(db, env, Execute(db, env, eventId).value);
      }
    }
  }

  lemma ReceiptIsOriginal(db: Database, env: CommandEnvelope, c: Committed)
    requires AppendsOne(db, env, c)
    ensures !c.receipt.replayed
  {
  }

  /** Reopening a consistent store: consistent again, log only extended, and only by unknown outcomes. */
  lemma ReopenOutcome(db: Database, stamp: RepairStamp, supply: nat -> FreshIds, now: nat)
    requires Consistent(db) && FreshSupply(db, supply, |StartedEffects(db)|)
    ensures var after := Open(db, stamp, supply, now).db;
            && Consistent(after) && Extends(db, after)
            && (forall i :: |db.events| <= i < |after.events| ==> after.events[i].payload == EffectOutcomeUnknown)
  {
    hide Consistent, FreshSupply, Open, Verify, StartedEffects, ClockAllows, NoneStarted, EffectsSettled;
    assert Damaged(db, StateOf(db)) == db;
    OpenRecovers(db, StateOf(db), stamp, supply, now);
    ConsistentVerifies(db, true, stamp);
    var o := Open(db, stamp, supply, now);
    if o.outcome.Success? {
      var found := StartedEffects(db);
      forall i | |db.events| <= i < |o.db.events| ensures o.db.events[i].payload == EffectOutcomeUnknown {
        var k := i - |db.events|;
        assert o.db.events[|db.events| + k] == SettlingEvent(found[k], supply(k), now, |db.events| + k + 1);
      }
    }
  }

  lemma CommitExtends(db: Database, env: CommandEnvelope, c: Committed)
    requires AppendsOne(db, env, c) && env.commandId !in db.receipts
    ensures Extends(db, c.db)
  {
    assert forall i :: 0 <= i < |db.events| ==> c.db.events[..|db.events|][i] == db.events[i];
  }

  // ---------------------------------------------------------------- runs

  lemma StepKeeps(db: Database, step: Step)
    requires Consistent(db) && FreshStep(db, step)
    ensures Consistent(AfterStep(db, step)) && Extends(db, AfterStep(db, step))
  {
    hide Consistent, Execute, Verify, Open, UuidV7, FreshSupply, AppendsOne;
    match step
    case Submit(env, eventId) =>
      if Execute(db, env, eventId).Success? {
        ExecuteKeepsConsistency(db, env, eventId);
        ExecuteOutcome(db, env, eventId);
        var c := Execute(db, env, eventId).value;
        if !c.receipt.replayed {
          CommitExtends(db, env, c);
        }
      }
    case Check(repair, stamp) => ConsistentVerifies(db, repair, stamp);
    case Reopen(stamp, supply, now) => ReopenOutcome(db, stamp, supply, now);
  }

  /** Whatever is submitted, verified and reopened, the projections stay what the log replays
      to, and neither the log nor the receipts ever lose anything. */
  lemma {:induction false} RunKeeps(db: Database, steps: seq<Step>)
    requires Consistent(db) && FreshRun(db, steps)
    ensures Consistent(RunOf(db, steps)) && Extends(db, RunOf(db, steps))
  {
    hide Consistent, AfterStep, FreshStep, Extends;
    if |steps| == 0 {
      assert Extends(db, db) by { ExtendsItself(db); }
    } else {
      var before := RunOf(db, steps[..|steps|-1]);
      RunKeeps(db, steps[..|steps|-1]);
      StepKeeps(before, steps[|steps|-1]);
      ExtendsTransitive(db, before, RunOf(db, steps));
    }
  }

  lemma ExtendsItself(db: Database)
    ensures Extends(db, db)
  {
  }

  /** Only start-up recovery ever records an unknown outcome, and it records nothing else. */
  lemma UnknownOnlyFromReopening(db: Database, step: Step)
    requires Consistent(db) && FreshStep(db, step)
    ensures var after := AfterStep(db, step);
            forall i :: |db.events| <= i < |after.events| ==>
              (after.events[i].payload == EffectOutcomeUnknown <==> step.Reopen?)
  {
    hide Consistent, Execute, Verify, Open, UuidV7, FreshSupply, ValidateEnvelope;
    match step
    case Submit(env, eventId) =>
      if Execute(db, env, eventId).Success? {
        ExecuteOutcome(db, env, eventId);
      }
    case Check(repair, stamp) => ConsistentVerifies(db, repair, stamp);
    case Reopen(stamp, supply, now) => ReopenOutcome(db, stamp, supply, now);
  }
}
