/** The invariant of the store: the projections are what replaying the log yields, receipts
    match events one to one, and repository roots are distinct. Every committed command keeps it. */
module StoreConsistency {
  import opened Characters
  import opened StoreModel
  import opened StoreTables
  import opened Wrappers

  // ------------------------------------------------------------ invariant

  ghost predicate Numbered(events: seq<Event>) {
    forall i :: 0 <= i < |events| ==> events[i].sequence == i + 1
  }

  ghost predicate DistinctIds(events: seq<Event>) {
    forall i, j :: 0 <= i < j < |events| ==>
      events[i].eventId != events[j].eventId && events[i].request.commandId != events[j].request.commandId
  }

  function RowFor(e: Event): ReceiptRow {
    ReceiptRow(e.request, e.revision, e.sequence, e.sequence)
  }

  ghost predicate Receipted(events: seq<Event>, receipts: map<string, ReceiptRow>) {
    && (forall i :: 0 <= i < |events| ==>
          events[i].request.commandId in receipts && receipts[events[i].request.commandId] == RowFor(events[i]))
    && (forall id :: id in receipts ==> exists i :: 0 <= i < |events| && events[i].request.commandId == id)
  }

  ghost predicate DistinctRoots(projects: map<string, Project>) {
    forall a, b :: a in projects && b in projects && projects[a].repoRoot == projects[b].repoRoot ==> a == b
  }

  function StateOf(db: Database): Replayed {
    Replayed(db.projects, db.effects, db.projectCursor, db.effectCursor)
  }

  ghost predicate Consistent(db: Database) {
    && Replay(db.events) == Success(StateOf(db))
    && Numbered(db.events) && DistinctIds(db.events) && Receipted(db.events, db.receipts)
    && DistinctRoots(db.projects)
  }

  // -------------------------------------------- what a replay establishes

  function RevisionOf(phase: Phase): nat {
    match phase
    case Authorized => 1
    case Started => 2
    case _ => 3
  }

  ghost predicate GoodProject(id: string, p: Project) {
    p.id == id && ValidProject(p) && p.lastEventSequence > 0
  }

  ghost predicate GoodEffect(id: string, e: SideEffect) {
    e.actionId == id && ValidSideEffect(e) && e.lastEventSequence > 0 && e.revision == RevisionOf(e.phase)
  }

  /** The revision a replayed state holds for an aggregate; 0 when there is none. */
  function RevisionIn(state: Replayed, aggregate: AggregateType, id: string): nat {
    match aggregate
    case ProjectAggregate => if id in state.projects then state.projects[id].revision else 0
    case SideEffectAggregate => if id in state.effects then state.effects[id].revision else 0
  }

  ghost predicate Established(events: seq<Event>, state: Replayed) {
    && (forall id :: id in state.projects ==> GoodProject(id, state.projects[id]))
    && (forall id :: id in state.effects ==> GoodEffect(id, state.effects[id]))
    && (forall i :: 0 <= i < |events| ==>
          events[i].revision <= RevisionIn(state, events[i].request.aggregateType, events[i].request.aggregateId))
  }

  /** Validation is stricter than the CHECK constraints of the tables. */
  lemma GoodRowIsAllowed(p: Project)
    requires ValidProject(p) && p.lastEventSequence > 0
    ensures ProjectRowAllowed(p)
  {
  }

  lemma GoodEffectIsAllowed(e: SideEffect)
    requires ValidSideEffect(e) && e.lastEventSequence > 0
    ensures EffectRowAllowed(e)
  {
  }

  lemma ReplayedProjectIsGood(current: Option<Project>, e: Event)
    requires current.Some? ==> GoodProject(e.request.aggregateId, current.value)
    requires ReplayProject(current, e).Success? && e.sequence > 0
    ensures var p := ReplayProject(current, e).value;
            GoodProject(e.request.aggregateId, p) && p.revision == e.revision
            && p.revision > (if current.Some? then current.value.revision else 0)
            && p.lastEventSequence == e.sequence
  {
  }

  lemma ReplayedEffectIsGood(current: Option<SideEffect>, e: Event)
    requires current.Some? ==> GoodEffect(e.request.aggregateId, current.value)
    requires ReplayEffect(current, e).Success? && e.sequence > 0
    ensures var s := ReplayEffect(current, e).value;
            GoodEffect(e.request.aggregateId, s) && s.revision == e.revision
            && s.revision > (if current.Some? then current.value.revision else 0)
  {
  }

  /** One replayed event advances the revision of its own aggregate and of no other. */
  lemma StepAdvances(state: Replayed, e: Event)
    requires ReplayStep(state, e).Success? && e.sequence > 0
    requires forall id :: id in state.projects ==> GoodProject(id, state.projects[id])
    requires forall id :: id in state.effects ==> GoodEffect(id, state.effects[id])
    ensures var next := ReplayStep(state, e).value;
            && (forall id :: id in next.projects ==> GoodProject(id, next.projects[id]))
            && (forall id :: id in next.effects ==> GoodEffect(id, next.effects[id]))
            && (forall t, id :: (t != e.request.aggregateType || id != e.request.aggregateId) ==>
                  RevisionIn(next, t, id) == RevisionIn(state, t, id))
            && RevisionIn(next, e.request.aggregateType, e.request.aggregateId) == e.revision
            && e.revision > RevisionIn(state, e.request.aggregateType, e.request.aggregateId)
  {
    hide ReplayProject, ReplayEffect, ValidEventIds, ValidActor, GoodProject, GoodEffect;
    var id := e.request.aggregateId;
    match e.request.aggregateType
    case ProjectAggregate =>
      ReplayedProjectIsGood(if id in state.projects then Some(state.projects[id]) else None, e);
    case SideEffectAggregate =>
      ReplayedEffectIsGood(if id in state.effects then Some(state.effects[id]) else None, e);
  }

  lemma EstablishedAfter(events: seq<Event>, state: Replayed, e: Event)
    requires Established(events, state) && ReplayStep(state, e).Success? && e.sequence > 0
    ensures Established(events + [e], ReplayStep(state, e).value)
  {
    hide ReplayStep, GoodProject, GoodEffect, RevisionIn;
    StepAdvances(state, e);
    var next, longer := ReplayStep(state, e).value, events + [e];
    forall i | 0 <= i < |longer|
      ensures longer[i].revision <= RevisionIn(next, longer[i].request.aggregateType, longer[i].request.aggregateId)
    {
      assert i < |events| ==> longer[i] == events[i];
    }
  }

  /** A log that replays yields valid rows, and no revision in it is ahead of its aggregate. */
  lemma {:induction false} ReplayEstablishes(events: seq<Event>)
    requires Replay(events).Success? && Numbered(events)
    ensures Established(events, Replay(events).value)
  {
    hide ReplayStep, Established;
    if events == [] {
      assert Established(events, Replay(events).value) by { NothingEstablished(); }
    } else {
      var init, e := events[..|events|-1], events[|events|-1];
      ReplayEstablishes(init);
      EstablishedAfter(init, Replay(init).value, e);
      assert events == init + [e];
    }
  }

  lemma NothingEstablished()
    ensures Established([], Replayed(map[], map[], 0, 0))
  {
  }

  lemma ReplayAppend(events: seq<Event>, e: Event)
    ensures Replay(events + [e])
            == match Replay(events) { case Failure(error) => Failure(error) case Success(s) => ReplayStep(s, e) }
  {
    assert (events + [e])[..|events|] == events;
  }

  // ------------------------------------------------- building and replaying

  /** What a command writes is what replaying its event yields. */
  lemma BuiltProjectReplays(env: CommandEnvelope, command: ProjectCommand, current: Option<Project>, sequence: nat,
      eventId: string)
    requires BuildProject(env.aggregateId, command, current, env.occurredAt).Success?
    requires var m := BuildProject(env.aggregateId, command, current, env.occurredAt).value; ValidProject(m.project)
    ensures var m := BuildProject(env.aggregateId, command, current, env.occurredAt).value;
            && ReplayProject(current, NewEvent(sequence, env, m.payload, m.project.revision, eventId))
               == Success(m.project.(lastEventSequence := sequence))
            && AggregateOf(m.payload) == ProjectAggregate
            && m.project.revision == (if current.Some? then current.value.revision else 0) + 1
            && m.project.id == (if current.Some? then current.value.id else env.aggregateId)
  {
    hide BoundedText, Identifier, Branch, RepoRoot, UuidV7, Weight;
  }

  lemma BuiltEffectReplays(env: CommandEnvelope, command: SideEffectCommand, current: Option<SideEffect>,
      sequence: nat, eventId: string)
    requires BuildEffect(env.aggregateId, command, current, env.occurredAt).Success?
             && ValidCommand(OnSideEffect(command))
    requires var m := BuildEffect(env.aggregateId, command, current, env.occurredAt).value; ValidSideEffect(m.effect)
    ensures var m := BuildEffect(env.aggregateId, command, current, env.occurredAt).value;
            && ReplayEffect(current, NewEvent(sequence, env, m.payload, m.effect.revision, eventId))
               == Success(m.effect.(lastEventSequence := sequence))
            && AggregateOf(m.payload) == SideEffectAggregate
            && m.effect.revision == (if current.Some? then current.value.revision else 0) + 1
            && m.effect.actionId == (if current.Some? then current.value.actionId else env.aggregateId)
            && (current.Some? ==>
                  m.effect.grant == current.value.grant && m.effect.authorizedAt == current.value.authorizedAt)
  {
    hide BoundedText, Identifier, RepoRoot, UuidV7, Sha256Text;
  }

  // --------------------------------------------------------- committing

  ghost predicate FreshEvent(db: Database, eventId: string) {
    UuidV7(eventId) && forall i :: 0 <= i < |db.events| ==> db.events[i].eventId != eventId
  }

  /** The next revision of an aggregate is free in the log. */
  lemma NextRevisionIsFree(db: Database, e: Event)
    requires Consistent(db) && FreshEvent(db, e.eventId)
    requires e.revision > RevisionIn(StateOf(db), e.request.aggregateType, e.request.aggregateId)
    ensures !EventConflicts(db.events, e)
  {
    ReplayEstablishes(db.events);
  }

  lemma NewIdsAreDistinct(db: Database, e: Event)
    requires DistinctIds(db.events) && Receipted(db.events, db.receipts) && e.request.commandId !in db.receipts
    requires forall i :: 0 <= i < |db.events| ==> db.events[i].eventId != e.eventId
    ensures DistinctIds(db.events + [e])
  {
    assert forall i :: 0 <= i < |db.events| ==> db.events[i].request.commandId in db.receipts;
  }

  /** Adding one event with its receipt keeps the receipts one to one. */
  lemma RecordKeepsReceipts(events: seq<Event>, receipts: map<string, ReceiptRow>, e: Event)
    requires Receipted(events, receipts) && e.request.commandId !in receipts
    ensures Receipted(events + [e], receipts[e.request.commandId := RowFor(e)])
  {
    var events', receipts' := events + [e], receipts[e.request.commandId := RowFor(e)];
    forall i | 0 <= i < |events'|
      ensures events'[i].request.commandId in receipts' && receipts'[events'[i].request.commandId] == RowFor(events'[i])
    {
      assert i < |events| ==> events'[i] == events[i];
    }
    forall id | id in receipts' ensures exists i :: 0 <= i < |events'| && events'[i].request.commandId == id {
      if id == e.request.commandId {
        assert events'[|events|] == e;
      } else {
        var i :| 0 <= i < |events| && events[i].request.commandId == id;
        assert events'[i] == events[i];
      }
    }
  }

  lemma RecordKeepsLedger(db: Database, e: Event)
    requires Numbered(db.events) && DistinctIds(db.events) && Receipted(db.events, db.receipts)
    requires e.sequence == |db.events| + 1 && e.request.commandId !in db.receipts
    requires forall i :: 0 <= i < |db.events| ==> db.events[i].eventId != e.eventId
    ensures Numbered(db.events + [e]) && DistinctIds(db.events + [e])
    ensures Receipted(db.events + [e], db.receipts[e.request.commandId := RowFor(e)])
  {
    hide DistinctIds, Receipted;
    NewIdsAreDistinct(db, e);
    RecordKeepsReceipts(db.events, db.receipts, e);
  }

  lemma RootsStayDistinct(projects: map<string, Project>, p: Project)
    requires DistinctRoots(projects) && !RootTaken(projects, p) && forall id :: id in projects ==> projects[id].id == id
    ensures DistinctRoots(projects[p.id := p])
  {
  }

  /** The event a valid envelope produces passes the checks of a replay. */
  lemma NewEventIsAccepted(env: CommandEnvelope, payload: Payload, sequence: nat, revision: nat, eventId: string)
    requires ValidateEnvelope(env).Success? && UuidV7(eventId) && AggregateOf(payload) == AggregateTypeOf(env.command)
    ensures var e := NewEvent(sequence, env, payload, revision, eventId);
            ValidEventIds(e) && ValidActor(e.request.actor) && e.request.aggregateType == AggregateOf(e.payload)
  {
    hide UuidV7, ValidCommand, Identifier;
  }

  ghost predicate Executable(db: Database, env: CommandEnvelope, eventId: string) {
    Consistent(db) && ValidateEnvelope(env).Success? && env.commandId !in db.receipts && FreshEvent(db, eventId)
  }

  /** The database after a committed project command. */
  lemma ProjectCommitted(db: Database, env: CommandEnvelope, command: ProjectCommand, eventId: string)
    requires env.command == OnProject(command) && ExecuteProject(db, env, command, eventId).Success?
    ensures var current := CurrentProject(db, env.aggregateId);
            var built := BuildProject(env.aggregateId, command, current, env.occurredAt);
            && built.Success? && ValidProject(built.value.project)
            && env.expectedRevision == (if current.Some? then current.value.revision else 0)
            && var m, n, after := built.value, |db.events| + 1, ExecuteProject(db, env, command, eventId).value;
               var e, p := NewEvent(n, env, m.payload, m.project.revision, eventId), m.project.(lastEventSequence := n);
               && after.db == Database(db.events + [e], db.receipts[env.commandId := RowFor(e)], after.db.projects,
                                       db.effects, n, db.effectCursor, Audited(db, env).audit)
               && ApplyProject(db.projects, p, current.None?) == Success(after.db.projects)
               && after.receipt == ReceiptFor(env, m.project.revision, n)
  {
    hide BuildProject, ValidProject, ApplyProject, EventConflicts;
  }

  lemma EffectCommitted(db: Database, env: CommandEnvelope, command: SideEffectCommand, eventId: string)
    requires env.command == OnSideEffect(command) && ExecuteEffect(db, env, command, eventId).Success?
    ensures var current := CurrentEffect(db, env.aggregateId);
            var built := BuildEffect(env.aggregateId, command, current, env.occurredAt);
            && built.Success? && ValidSideEffect(built.value.effect)
            && env.expectedRevision == (if current.Some? then current.value.revision else 0)
            && var m, n, after := built.value, |db.events| + 1, ExecuteEffect(db, env, command, eventId).value;
               var e, s := NewEvent(n, env, m.payload, m.effect.revision, eventId), m.effect.(lastEventSequence := n);
               && after.db == Database(db.events + [e], db.receipts[env.commandId := RowFor(e)], db.projects,
                                       after.db.effects, db.projectCursor, n, Audited(db, env).audit)
               && ApplyEffect(db.effects, s, current.None?) == Success(after.db.effects)
               && after.receipt == ReceiptFor(env, m.effect.revision, n)
  {
    hide BuildEffect, ValidSideEffect, ApplyEffect, EventConflicts;
  }

  lemma ProjectCommitReplays(db: Database, env: CommandEnvelope, command: ProjectCommand, eventId: string)
    requires Executable(db, env, eventId) && env.command == OnProject(command)
             && ExecuteProject(db, env, command, eventId).Success?
    ensures var after := ExecuteProject(db, env, command, eventId).value.db;
            Replay(after.events) == Success(StateOf(after)) && DistinctRoots(after.projects)
  {
    hide Replay, ReplayProject, ReplayEffect, BuildProject, ValidProject, ValidateEnvelope, ExecuteProject,
         ValidEventIds, ValidActor;
    ProjectCommitted(db, env, command, eventId);
    ReplayEstablishes(db.events);
    var current, n := CurrentProject(db, env.aggregateId), |db.events| + 1;
    var m := BuildProject(env.aggregateId, command, current, env.occurredAt).value;
    var e := NewEvent(n, env, m.payload, m.project.revision, eventId);
    BuiltProjectReplays(env, command, current, n, eventId);
    NewEventIsAccepted(env, m.payload, n, m.project.revision, eventId);
    ReplayAppend(db.events, e);
    RootsStayDistinct(db.projects, m.project.(lastEventSequence := n));
  }

  lemma EffectCommitReplays(db: Database, env: CommandEnvelope, command: SideEffectCommand, eventId: string)
    requires Executable(db, env, eventId) && env.command == OnSideEffect(command)
             && ExecuteEffect(db, env, command, eventId).Success?
    ensures var after := ExecuteEffect(db, env, command, eventId).value.db;
            && Replay(after.events) == Success(StateOf(after))
            && (var built := BuildEffect(env.aggregateId, command, CurrentEffect(db, env.aggregateId), env.occurredAt);
                after.effects == db.effects[env.aggregateId :=
                                            built.value.effect.(lastEventSequence := |db.events| + 1)])
  {
    EnvelopeCommandValid(env);
    hide Replay, ReplayProject, ReplayEffect, BuildEffect, ValidSideEffect, ValidateEnvelope, ExecuteEffect,
         ValidEventIds, ValidActor, ValidCommand;
    EffectCommitted(db, env, command, eventId);
    ReplayEstablishes(db.events);
    var current, n := CurrentEffect(db, env.aggregateId), |db.events| + 1;
    var m := BuildEffect(env.aggregateId, command, current, env.occurredAt).value;
    var e := NewEvent(n, env, m.payload, m.effect.revision, eventId);
    BuiltEffectReplays(env, command, current, n, eventId);
    NewEventIsAccepted(env, m.payload, n, m.effect.revision, eventId);
    ReplayAppend(db.events, e);
  }

  lemma EnvelopeCommandValid(env: CommandEnvelope)
    requires ValidateEnvelope(env).Success?
    ensures ValidCommand(env.command) && env.expectedRevision <= MAX_SAFE_JSON_INTEGER
            && env.occurredAt <= MAX_SAFE_JSON_INTEGER
  {
    hide ValidCommand, UuidV7, ValidActor;
  }

  lemma ProjectCommitKeepsConsistency(db: Database, env: CommandEnvelope, command: ProjectCommand, eventId: string)
    requires Executable(db, env, eventId) && env.command == OnProject(command)
             && ExecuteProject(db, env, command, eventId).Success?
    ensures Consistent(ExecuteProject(db, env, command, eventId).value.db)
  {
    hide Replay, ValidateEnvelope, ExecuteProject, BuildProject, ValidProject;
    ProjectCommitReplays(db, env, command, eventId);
    ProjectCommitted(db, env, command, eventId);
    var after := ExecuteProject(db, env, command, eventId).value.db;
    RecordKeepsLedger(db, after.events[|db.events|]);
  }

  lemma EffectCommitKeepsConsistency(db: Database, env: CommandEnvelope, command: SideEffectCommand, eventId: string)
    requires Executable(db, env, eventId) && env.command == OnSideEffect(command)
             && ExecuteEffect(db, env, command, eventId).Success?
    ensures Consistent(ExecuteEffect(db, env, command, eventId).value.db)
  {
    hide Replay, ValidateEnvelope, ExecuteEffect, BuildEffect, ValidSideEffect;
    EffectCommitReplays(db, env, command, eventId);
    EffectCommitted(db, env, command, eventId);
    var after := ExecuteEffect(db, env, command, eventId).value.db;
    RecordKeepsLedger(db, after.events[|db.events|]);
  }

  /** The unique key of the event table refuses an event id that is in use. */
  lemma UsedEventIdIsRefused(db: Database, env: CommandEnvelope, eventId: string)
    requires Execute(db, env, eventId).Success? && env.commandId !in db.receipts
    ensures forall i :: 0 <= i < |db.events| ==> db.events[i].eventId != eventId
  {
    hide ValidateEnvelope, BuildProject, BuildEffect, ValidProject, ValidSideEffect, ApplyProject, ApplyEffect;
  }

  /** Whatever a client submits, and even if the generated event id is already in use, the
      tables stay consistent. */
  lemma ExecuteKeepsConsistency(db: Database, env: CommandEnvelope, eventId: string)
    requires Consistent(db) && UuidV7(eventId) && Execute(db, env, eventId).Success?
    ensures Consistent(Execute(db, env, eventId).value.db)
  {
    hide Consistent, ExecuteProject, ExecuteEffect, ValidateEnvelope, UuidV7;
    if env.commandId !in db.receipts {
      UsedEventIdIsRefused(db, env, eventId);
      match env.command {
        case OnProject(command) => ProjectCommitKeepsConsistency(db, env, command, eventId);
        case OnSideEffect(command) => EffectCommitKeepsConsistency(db, env, command, eventId);
      }
    }
  }
}
