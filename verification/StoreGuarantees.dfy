/** What runs of the store promise to callers: exact retries, one commit per expected revision,
    consecutive revisions and the life cycle of a side effect. */
module StoreGuarantees {
  import opened StoreConsistency
  import opened StoreHistory
  import opened StoreModel
  import opened StoreRepair
  import opened StoreTables
  import opened Wrappers

  // -------------------------------------------------------- exact retries

  /** Once a command has succeeded, sending the identical envelope again after any further
      history returns the original receipt, marked replayed, and changes nothing. */
  lemma RetryReturnsReceipt(db: Database, env: CommandEnvelope, eventId: string, steps: seq<Step>, retryId: string)
    requires Consistent(db) && UuidV7(eventId) && Execute(db, env, eventId).Success?
    requires FreshRun(Execute(db, env, eventId).value.db, steps)
    ensures var c := Execute(db, env, eventId).value;
            var later := RunOf(c.db, steps);
            Execute(later, env, retryId) == Success(Committed(later, c.receipt.(replayed := true)))
  {
    hide Consistent, UuidV7, ExecuteProject, ExecuteEffect, ValidateEnvelope, RunOf, FreshRun;
    var c := Execute(db, env, eventId).value;
    ExecuteKeepsConsistency(db, env, eventId);
    ExecuteOutcome(db, env, eventId);
    RunKeeps(c.db, steps);
    ReceiptIsStored(db, env, c);
  }

  /** The stored receipt of a command that succeeded. */
  lemma ReceiptIsStored(db: Database, env: CommandEnvelope, c: Committed)
    requires exists eventId :: Execute(db, env, eventId) == Success(c)
    ensures env.commandId in c.db.receipts
    ensures var row := c.db.receipts[env.commandId];
            && row.request.digest == DigestOf(env)
            && c.receipt.(replayed := true)
               == CommandReceipt(env.commandId, row.request.aggregateId, row.revision, row.firstSequence,
                                 row.lastSequence, true)
  {
    hide ExecuteProject, ExecuteEffect, ValidateEnvelope;
    var eventId :| Execute(db, env, eventId) == Success(c);
    ExecuteOutcome(db, env, eventId);
  }

  /** The same command id with any other content fails after any further history. */
  lemma {:induction false} ReusedIdConflicts(db: Database, env: CommandEnvelope, eventId: string, steps: seq<Step>,
                                             other: CommandEnvelope, retryId: string)
    requires Consistent(db) && UuidV7(eventId) && Execute(db, env, eventId).Success?
    requires FreshRun(Execute(db, env, eventId).value.db, steps)
    requires other.commandId == env.commandId && other != env
    ensures var r := Execute(RunOf(Execute(db, env, eventId).value.db, steps), other, retryId);
            && r.Failure?
            && (ValidateEnvelope(other).Success? && other.command != OnSideEffect(MarkUnknown) ==>
                  r == Failure(IdempotencyConflict(env.commandId)))
  {
    hide Consistent, UuidV7, ExecuteProject, ExecuteEffect, ValidateEnvelope, RunOf, FreshRun;
    var c := Execute(db, env, eventId).value;
    ExecuteKeepsConsistency(db, env, eventId);
    RunKeeps(c.db, steps);
    ReceiptIsStored(db, env, c);
  }

  /** Each command id with a receipt owns exactly one event, and the others own none. */
  lemma OneEventPerCommand(db: Database, id: string)
    requires Consistent(db)
    ensures |EventsOf(db.events, id)| == if id in db.receipts then 1 else 0
  {
    hide Replay;
    if id in db.receipts {
      var i :| 0 <= i < |db.events| && db.events[i].request.commandId == id;
      EventsOfOne(db.events, i);
    } else {
      assert forall i :: 0 <= i < |db.events| ==> db.events[i].request.commandId in db.receipts;
      EventsOfNone(db.events, id);
    }
  }

  // ---------------------------------------------------- expected revisions

  lemma RevisionHasPassed(db: Database, later: Database, env: CommandEnvelope, c: Committed)
    requires Consistent(later) && AppendsOne(db, env, c) && Extends(c.db, later)
    ensures RevisionIn(StateOf(later), AggregateTypeOf(env.command), env.aggregateId) > env.expectedRevision
  {
    hide Replay, DistinctIds, Receipted, DistinctRoots;
    var e := c.db.events[|db.events|];
    assert later.events[|db.events|] == e;
    ReplayEstablishes(later.events);
  }

  lemma StaleRevisionConflicts(db: Database, env: CommandEnvelope, eventId: string)
    requires env.expectedRevision != RevisionIn(StateOf(db), AggregateTypeOf(env.command), env.aggregateId)
    requires ValidateEnvelope(env).Success? && env.command != OnSideEffect(MarkUnknown) && env.commandId !in db.receipts
    ensures Execute(db, env, eventId)
            == Failure(RevisionConflict(env.aggregateId, env.expectedRevision,
                                        RevisionIn(StateOf(db), AggregateTypeOf(env.command), env.aggregateId)))
  {
    hide ValidateEnvelope, BuildProject, BuildEffect, Record;
  }

  /** Of all commands sent with one expected revision of an aggregate, at most one commits:
      once one has, every other one conflicts, at any later time. */
  lemma {:induction false} OneCommitPerExpectedRevision(db: Database, env: CommandEnvelope, eventId: string,
      steps: seq<Step>, rival: CommandEnvelope, rivalId: string)
    requires Consistent(db) && UuidV7(eventId) && Execute(db, env, eventId).Success? && env.commandId !in db.receipts
    requires FreshRun(Execute(db, env, eventId).value.db, steps)
    requires AggregateTypeOf(rival.command) == AggregateTypeOf(env.command) && rival.aggregateId == env.aggregateId
    requires rival.expectedRevision == env.expectedRevision
    ensures var later := RunOf(Execute(db, env, eventId).value.db, steps);
            var r := Execute(later, rival, rivalId);
            && (r.Success? ==> r.value.receipt.replayed && r.value.db == later)
            && (rival.commandId !in later.receipts && ValidateEnvelope(rival).Success?
                && rival.command != OnSideEffect(MarkUnknown) ==>
                  r.Failure? && r.error.RevisionConflict?)
  {
    hide Consistent, UuidV7, Execute, ValidateEnvelope, RunOf, FreshRun, StateOf, AppendsOne;
    var c := Execute(db, env, eventId).value;
    ExecuteKeepsConsistency(db, env, eventId);
    ExecuteOutcome(db, env, eventId);
    RunKeeps(c.db, steps);
    var later := RunOf(c.db, steps);
    RevisionHasPassed(db, later, env, c);
    RivalFails(later, rival, rivalId);
  }

  lemma RivalFails(db: Database, rival: CommandEnvelope, rivalId: string)
    requires rival.expectedRevision != RevisionIn(StateOf(db), AggregateTypeOf(rival.command), rival.aggregateId)
    ensures var r := Execute(db, rival, rivalId);
            && (r.Success? ==> r.value.receipt.replayed && r.value.db == db)
            && (rival.commandId !in db.receipts && ValidateEnvelope(rival).Success?
                && rival.command != OnSideEffect(MarkUnknown) ==>
                  r.Failure? && r.error.RevisionConflict?)
  {
    hide ValidateEnvelope, ExecuteProject, ExecuteEffect;
    if rival.commandId !in db.receipts && ValidateEnvelope(rival).Success?
        && rival.command != OnSideEffect(MarkUnknown) {
      StaleRevisionConflicts(db, rival, rivalId);
    }
  }

  // ------------------------------------------------ history of an aggregate

  /** The events of one aggregate, in log order. */
  function HistoryOf(events: seq<Event>, aggregate: AggregateType, id: string): seq<Event> {
    if events == [] then []
    else
      var e := events[|events|-1];
      HistoryOf(events[..|events|-1], aggregate, id)
      + if e.request.aggregateType == aggregate && e.request.aggregateId == id then [e] else []
  }

  /** Revisions are consecutive, from 1 or from an imported baseline, up to the current one. */
  ghost predicate Consecutive(history: seq<Event>, current: nat) {
    if history == [] then current == 0
    else
      && (history[0].revision == 1 || history[0].payload.ProjectImported?)
      && (forall i :: 0 < i < |history| ==>
            history[i].revision == history[i-1].revision + 1 && !history[i].payload.ProjectImported?)
      && history[|history|-1].revision == current > 0
  }

  /** One replayed event comes right after its aggregate's revision, or starts the aggregate. */
  lemma StepIsNext(state: Replayed, e: Event)
    requires ReplayStep(state, e).Success?
    requires forall id :: id in state.projects ==> GoodProject(id, state.projects[id])
    requires forall id :: id in state.effects ==> GoodEffect(id, state.effects[id])
    ensures var before := RevisionIn(state, e.request.aggregateType, e.request.aggregateId);
            if before == 0 then e.revision == 1 || e.payload.ProjectImported?
            else e.revision == before + 1 && !e.payload.ProjectImported?
  {
    hide ValidProject, ValidSideEffect, ValidEventIds, ValidActor, ValidAuditContext, ValidTrustTransition;
    assert forall id :: id in state.projects ==> state.projects[id].revision > 0 by { ProjectsAreGood(state); }
    assert forall id :: id in state.effects ==> state.effects[id].revision > 0 by { EffectsAreGood(state); }
  }

  lemma ProjectsAreGood(state: Replayed)
    requires forall id :: id in state.projects ==> GoodProject(id, state.projects[id])
    ensures forall id :: id in state.projects ==> state.projects[id].revision > 0
  {
  }

  lemma EffectsAreGood(state: Replayed)
    requires forall id :: id in state.effects ==> GoodEffect(id, state.effects[id])
    ensures forall id :: id in state.effects ==> state.effects[id].revision > 0
  {
  }

  lemma OneMoreRevision(history: seq<Event>, current: nat, e: Event)
    requires Consecutive(history, current) && e.revision > 0
    requires if current == 0 then e.revision == 1 || e.payload.ProjectImported?
             else e.revision == current + 1 && !e.payload.ProjectImported?
    ensures Consecutive(history + [e], e.revision)
  {
  }

  /** In every log that replays, an aggregate's revisions are consecutive and end at its current one. */
  lemma {:induction false} RevisionsAreConsecutive(events: seq<Event>, aggregate: AggregateType, id: string)
    requires Replay(events).Success? && Numbered(events)
    ensures Consecutive(HistoryOf(events, aggregate, id), RevisionIn(Replay(events).value, aggregate, id))
  {
    hide ReplayStep, GoodProject, GoodEffect, RevisionIn, Consecutive;
    if events == [] {
      NothingReplayed(aggregate, id);
    } else {
      var init, e := events[..|events|-1], events[|events|-1];
      RevisionsAreConsecutive(init, aggregate, id);
      ReplayEstablishes(init);
      StepAdvances(Replay(init).value, e);
      StepIsNext(Replay(init).value, e);
      if e.request.aggregateType == aggregate && e.request.aggregateId == id {
        OneMoreRevision(HistoryOf(init, aggregate, id), RevisionIn(Replay(init).value, aggregate, id), e);
      } else {
        assert HistoryOf(events, aggregate, id) == HistoryOf(init, aggregate, id);
      }
    }
  }

  lemma NothingReplayed(aggregate: AggregateType, id: string)
    ensures Consecutive([], RevisionIn(Replayed(map[], map[], 0, 0), aggregate, id))
  {
  }

  // ---------------------------------------------- life cycle of side effects

  /** The log of an action is a prefix of authorized, started, then finished or unknown, and
      the row holds what those events said. */
  ghost predicate LifeCycle(history: seq<Event>, current: Option<SideEffect>) {
    match current
    case None => history == []
    case Some(e) =>
      && |history| == RevisionOf(e.phase)
      && history[0].payload.EffectAuthorized? && history[0].payload.grant == e.grant
      && history[0].request.at == e.authorizedAt
      && (e.phase != Authorized ==> history[1].payload == EffectStarted && e.startedAt == Some(history[1].request.at))
      && (e.phase == Finished ==>
            history[2].payload.EffectFinished? && e.resultClass == Some(history[2].payload.resultClass)
            && e.finishedAt == Some(history[2].request.at))
      && (e.phase == Unknown ==> history[2].payload == EffectOutcomeUnknown)
  }

  lemma EffectStepFollows(history: seq<Event>, current: Option<SideEffect>, e: Event)
    requires LifeCycle(history, current) && ReplayEffect(current, e).Success?
    ensures LifeCycle(history + [e], Some(ReplayEffect(current, e).value))
  {
    hide ValidSideEffect, ValidAuditContext;
  }

  lemma {:induction false} ActionsFollowTheLifeCycle(events: seq<Event>, id: string)
    requires Replay(events).Success?
    ensures var state := Replay(events).value;
            LifeCycle(HistoryOf(events, SideEffectAggregate, id),
                      if id in state.effects then Some(state.effects[id]) else None)
  {
    hide LifeCycle, ReplayEffect, ReplayProject, ValidEventIds, ValidActor;
    if events == [] {
      assert LifeCycle([], None) by { NoLifeYet(); }
    } else {
      var init, e := events[..|events|-1], events[|events|-1];
      ActionsFollowTheLifeCycle(init, id);
      var state := Replay(init).value;
      if e.request.aggregateType == SideEffectAggregate && e.request.aggregateId == id {
        EffectStepFollows(HistoryOf(init, SideEffectAggregate, id),
                          if id in state.effects then Some(state.effects[id]) else None, e);
      } else {
        assert HistoryOf(events, SideEffectAggregate, id) == HistoryOf(init, SideEffectAggregate, id);
      }
    }
  }

  lemma NoLifeYet()
    ensures LifeCycle([], None)
  {
  }

  // ------------------------------------------------- fields of a project

  function NameIn(p: Payload): Option<string> {
    match p
    case ProjectCreated(c) => Some(c.displayName)
    case ProjectImported(row) => Some(row.displayName)
    case ProjectRenamed(name) => Some(name)
    case _ => None
  }

  function TrustIn(p: Payload): Option<TrustState> {
    match p
    case ProjectCreated(_) => Some(Untrusted)
    case ProjectImported(row) => Some(row.trustState)
    case ProjectTrustChanged(trust) => Some(trust)
    case _ => None
  }

  function WeightIn(p: Payload): Option<real> {
    match p
    case ProjectCreated(c) => Some(c.weight)
    case ProjectImported(row) => Some(row.weight)
    case ProjectWeightChanged(w) => Some(w)
    case _ => None
  }

  function PolicyIn(p: Payload): Option<(string, string)> {
    match p
    case ProjectCreated(c) => Some((c.providerPolicy, c.dataClassification))
    case ProjectImported(row) => Some((row.providerPolicy, row.dataClassification))
    case ProjectPolicyChanged(policy, data) => Some((policy, data))
    case _ => None
  }

  function RepositoryIn(p: Payload): Option<(string, string, string)> {
    match p
    case ProjectCreated(c) => Some((c.repoRoot, c.repoIdentity, c.defaultBranch))
    case ProjectImported(row) => Some((row.repoRoot, row.repoIdentity, row.defaultBranch))
    case _ => None
  }

  /** What the last event that says anything says. */
  function LastOf<T>(history: seq<Event>, said: Payload -> Option<T>): Option<T> {
    if history == [] then None
    else
      var last := said(history[|history|-1].payload);
      if last.Some? then last else LastOf(history[..|history|-1], said)
  }

  /** Every field of a project holds what was last written to it, and the repository is never rewritten. */
  ghost predicate LastWritten(history: seq<Event>, current: Option<Project>) {
    match current
    case None => history == []
    case Some(p) =>
      && history != []
      && LastOf(history, NameIn) == Some(p.displayName) && LastOf(history, TrustIn) == Some(p.trustState)
      && LastOf(history, WeightIn) == Some(p.weight)
      && LastOf(history, PolicyIn) == Some((p.providerPolicy, p.dataClassification))
      && LastOf(history, RepositoryIn) == Some((p.repoRoot, p.repoIdentity, p.defaultBranch))
      && RepositoryIn(history[0].payload) == Some((p.repoRoot, p.repoIdentity, p.defaultBranch))
      && p.createdAt == (if history[0].payload.ProjectImported? then history[0].payload.row.createdAt
                         else history[0].request.at)
      && (var last := history[|history|-1];
          p.revision == last.revision && p.lastEventSequence == last.sequence
          && p.updatedAt == if last.payload.ProjectImported? then last.payload.row.updatedAt else last.request.at)
  }

  lemma LastOfOneMore<T>(history: seq<Event>, e: Event, said: Payload -> Option<T>)
    ensures LastOf(history + [e], said) == if said(e.payload).Some? then said(e.payload) else LastOf(history, said)
  {
    assert (history + [e])[..|history|] == history;
  }

  lemma ProjectStepFollows(history: seq<Event>, current: Option<Project>, e: Event)
    requires LastWritten(history, current) && ReplayProject(current, e).Success?
    ensures LastWritten(history + [e], Some(ReplayProject(current, e).value))
  {
    hide ValidProject, ValidTrustTransition, LastOf;
    LastOfOneMore(history, e, NameIn);
    LastOfOneMore(history, e, TrustIn);
    LastOfOneMore(history, e, WeightIn);
    LastOfOneMore(history, e, PolicyIn);
    LastOfOneMore(history, e, RepositoryIn);
  }

  lemma {:induction false} ProjectsHoldWhatWasWritten(events: seq<Event>, id: string)
    requires Replay(events).Success?
    ensures var state := Replay(events).value;
            LastWritten(HistoryOf(events, ProjectAggregate, id),
                        if id in state.projects then Some(state.projects[id]) else None)
  {
    hide LastWritten, ReplayEffect, ReplayProject, ValidEventIds, ValidActor;
    if events == [] {
      assert LastWritten([], None) by { NothingWritten(); }
    } else {
      var init, e := events[..|events|-1], events[|events|-1];
      ProjectsHoldWhatWasWritten(init, id);
      var state := Replay(init).value;
      if e.request.aggregateType == ProjectAggregate && e.request.aggregateId == id {
        ProjectStepFollows(HistoryOf(init, ProjectAggregate, id),
                           if id in state.projects then Some(state.projects[id]) else None, e);
      } else {
        assert HistoryOf(events, ProjectAggregate, id) == HistoryOf(init, ProjectAggregate, id);
      }
    }
  }

  lemma NothingWritten()
    ensures LastWritten([], None)
  {
  }

  // ------------------------------------------------------- starting points

  /** Rows as the version-1 schema keeps them: distinct ids and repository roots. */
  ghost predicate DistinctRows(rows: seq<Project>) {
    forall i, j :: 0 <= i < j < |rows| ==> rows[i].id != rows[j].id && rows[i].repoRoot != rows[j].repoRoot
  }

  ghost predicate ValidRows(rows: seq<Project>) {
    forall i :: 0 <= i < |rows| ==> ValidProject(rows[i])
  }

  lemma ImportedRowReplays(row: Project, sequence: nat)
    ensures ReplayProject(None, ImportEvent(row, sequence))
            == if ValidProject(row) then Success(row.(lastEventSequence := sequence)) else Failure(IntegrityFailure)
    ensures ValidProject(row) ==>
              ValidEventIds(ImportEvent(row, sequence)) && ValidActor(ImportEvent(row, sequence).request.actor)
  {
    hide BoundedText, RepoRoot, Branch, UuidV7, Weight;
    var actor := "migration-v2";
    assert Identifier(actor);
  }

  lemma ImportStep(rows: seq<Project>, state: Replayed)
    requires DistinctRows(rows) && rows != [] && state == StateOf(Import(rows[..|rows|-1]))
    ensures var row := rows[|rows|-1];
            var r := ReplayStep(state, ImportEvent(row, |rows|));
            if ValidProject(row) then r == Success(StateOf(Import(rows))) else r.Failure?
  {
    hide ValidProject, ReplayProject, ValidEventIds, ValidActor, ImportedProjects, DistinctRows;
    var row := rows[|rows|-1];
    ImportedIdIsNew(rows);
    ImportedRowReplays(row, |rows|);
  }

  lemma ImportedIdIsNew(rows: seq<Project>)
    requires DistinctRows(rows) && rows != []
    ensures var before := Import(rows[..|rows|-1]);
            rows[|rows|-1].id !in before.projects && before.effects == map[] && before.effectCursor == 0
  {
    hide Import;
    ImportContents(rows[..|rows|-1]);
  }

  /** The migrated log replays exactly when every imported row is valid, and then yields the
      migrated tables. */
  lemma {:induction false} ImportReplays(rows: seq<Project>)
    requires DistinctRows(rows)
    ensures Replay(Import(rows).events).Success? <==> ValidRows(rows)
    ensures ValidRows(rows) ==> Replay(Import(rows).events) == Success(StateOf(Import(rows)))
  {
    hide ValidProject, ReplayStep;
    if rows == [] {
    } else {
      var init := rows[..|rows|-1];
      ImportReplays(init);
      ReplayAppend(Import(init).events, ImportEvent(rows[|rows|-1], |rows|));
      if ValidRows(init) {
        ImportStep(rows, StateOf(Import(init)));
      }
      assert ValidRows(rows) <==> ValidRows(init) && ValidProject(rows[|rows|-1]) by {
        assert forall i :: 0 <= i < |init| ==> init[i] == rows[i];
      }
    }
  }

  lemma {:induction false} ImportKeepsLedger(rows: seq<Project>)
    requires DistinctRows(rows)
    ensures var db := Import(rows); Numbered(db.events) && DistinctIds(db.events) && Receipted(db.events, db.receipts)
  {
    if rows == [] {
    } else {
      var init := rows[..|rows|-1];
      ImportKeepsLedger(init);
      ImportContents(init);
      hide DistinctIds, Numbered;
      RecordKeepsLedger(Import(init), ImportEvent(rows[|rows|-1], |rows|));
    }
  }

  /** The migration of version-1 rows yields a consistent store if and only if every row is valid. */
  lemma {:induction false} ImportIsConsistent(rows: seq<Project>)
    requires DistinctRows(rows)
    ensures Consistent(Import(rows)) <==> ValidRows(rows)
  {
    hide Replay, Import, ValidProject;
    ImportReplays(rows);
    ImportKeepsLedger(rows);
    ImportContents(rows);
    assert DistinctRoots(Import(rows).projects);
  }

  /** From imported rows (none for a new store), through any run, the tables hold exactly what
      the log replays to: verification never reports a mismatch, and every aggregate and
      action has a regular history. */
  lemma RunsVerify(rows: seq<Project>, steps: seq<Step>, stamp: RepairStamp)
    requires DistinctRows(rows) && ValidRows(rows) && FreshRun(Import(rows), steps)
    ensures var db := RunOf(Import(rows), steps);
            && Consistent(db)
            && Verify(db, false, stamp)
               == Success(Verified(db, Report(|db.events|, |db.projects|, |db.effects|, false)))
            && (forall aggregate, id ::
                  Consecutive(HistoryOf(db.events, aggregate, id), RevisionIn(StateOf(db), aggregate, id)))
            && (forall id :: LifeCycle(HistoryOf(db.events, SideEffectAggregate, id), CurrentEffect(db, id)))
            && (forall id :: LastWritten(HistoryOf(db.events, ProjectAggregate, id), CurrentProject(db, id)))
  {
    hide Import, ValidProject, RunOf, FreshRun, Verify, HistoryOf, Consecutive, LifeCycle, LastWritten, DistinctRoots,
         Receipted, DistinctIds, Replay;
    ImportIsConsistent(rows);
    RunKeeps(Import(rows), steps);
    var db := RunOf(Import(rows), steps);
    ConsistentVerifies(db, false, stamp);
    forall aggregate, id
      ensures Consecutive(HistoryOf(db.events, aggregate, id), RevisionIn(StateOf(db), aggregate, id))
    {
      RevisionsAreConsecutive(db.events, aggregate, id);
    }
    forall id ensures LifeCycle(HistoryOf(db.events, SideEffectAggregate, id), CurrentEffect(db, id)) {
      ActionsFollowTheLifeCycle(db.events, id);
    }
    forall id ensures LastWritten(HistoryOf(db.events, ProjectAggregate, id), CurrentProject(db, id)) {
      ProjectsHoldWhatWasWritten(db.events, id);
    }
  }
}
