/** What a committed command says and does, field by field and without the functions that carry
    it out; which events a replay takes; and which error refuses a command. */
module StoreCommands {
  import opened Orders
  import opened StoreCommits
  import opened StoreConsistency
  import opened StoreGuarantees
  import opened StoreModel
  import opened StoreRecovery
  import opened StoreRepair
  import opened StoreTables
  import opened Wrappers

  // -------------------------------------------------- what a command asks

  /** The name of a command in the tables and what its event says. */
  function Asked(command: StoreCommand): (string, Payload) {
    match command
    case OnProject(Create(project)) => ("project.create", ProjectCreated(project))
    case OnProject(Rename(name)) => ("project.rename", ProjectRenamed(name))
    case OnProject(SetTrust(trust)) => ("project.set_trust", ProjectTrustChanged(trust))
    case OnProject(SetSchedulingWeight(w)) => ("project.set_scheduling_weight", ProjectWeightChanged(w))
    case OnProject(SetPolicy(policy, data)) => ("project.set_policy", ProjectPolicyChanged(policy, data))
    case OnSideEffect(Authorize(grant, audit)) => ("side_effect.authorize", EffectAuthorized(grant, audit))
    case OnSideEffect(Start) => ("side_effect.start", EffectStarted)
    case OnSideEffect(Finish(r)) => ("side_effect.finish", EffectFinished(r))
    case OnSideEffect(MarkUnknown) => ("side_effect.mark_unknown", EffectOutcomeUnknown)
  }

  /** A field holds what the command sets, if it sets it, and otherwise what it held before. */
  ghost predicate Holds<T(!new)>(now: T, chosen: Option<T>, before: Option<T>) {
    Some(now) == if chosen.Some? then chosen else before
  }

  ghost predicate ProjectIs(after: Project, before: Option<Project>, command: ProjectCommand, id: string, at: nat,
                      sequence: nat) {
    var was := before;
    && after.id == id
    && Holds(after.displayName,
             if command.Create? then Some(command.project.displayName)
             else if command.Rename? then Some(command.displayName) else None,
             if was.Some? then Some(was.value.displayName) else None)
    && Holds((after.repoRoot, after.repoIdentity, after.defaultBranch),
             if command.Create? then
               Some((command.project.repoRoot, command.project.repoIdentity, command.project.defaultBranch))
             else None,
             if was.Some? then Some((was.value.repoRoot, was.value.repoIdentity, was.value.defaultBranch)) else None)
    && Holds(after.trustState,
             if command.Create? then Some(TrustState.Untrusted)
             else if command.SetTrust? then Some(command.trustState) else None,
             if was.Some? then Some(was.value.trustState) else None)
    && Holds(after.weight,
             if command.Create? then Some(command.project.weight)
             else if command.SetSchedulingWeight? then Some(command.weight) else None,
             if was.Some? then Some(was.value.weight) else None)
    && Holds((after.providerPolicy, after.dataClassification),
             if command.Create? then Some((command.project.providerPolicy, command.project.dataClassification))
             else if command.SetPolicy? then Some((command.providerPolicy, command.dataClassification)) else None,
             if was.Some? then Some((was.value.providerPolicy, was.value.dataClassification)) else None)
    && after.revision == (if was.Some? then was.value.revision + 1 else 1)
    && after.createdAt == (if was.Some? then was.value.createdAt else at)
    && after.updatedAt == at && after.lastEventSequence == sequence
  }

  ghost predicate EffectIs(after: SideEffect, before: Option<SideEffect>, command: SideEffectCommand, id: string,
                     at: nat, sequence: nat) {
    var was := before;
    && after.actionId == id
    && Holds(after.grant, if command.Authorize? then Some(command.grant) else None,
             if was.Some? then Some(was.value.grant) else None)
    && after.phase == (match command
                       case Authorize(_, _) => Phase.Authorized
                       case Start => Phase.Started
                       case Finish(_) => Phase.Finished
                       case MarkUnknown => Phase.Unknown)
    && after.resultClass == (if command.Finish? then Some(command.resultClass) else None)
    && after.authorizedAt == (if was.Some? then was.value.authorizedAt else at)
    && after.startedAt == (if command.Start? then Some(at) else if was.Some? then was.value.startedAt else None)
    && after.finishedAt == (if command.Finish? then Some(at) else None)
    && after.revision == (if was.Some? then was.value.revision + 1 else 1)
    && after.updatedAt == at && after.lastEventSequence == sequence
  }

  // -------------------------------------------------- one row at a time

  lemma ProjectIsBuilt(id: string, command: ProjectCommand, current: Option<Project>, at: nat, sequence: nat)
    requires BuildProject(id, command, current, at).Success? && (current.Some? ==> current.value.id == id)
    ensures var m := BuildProject(id, command, current, at).value;
            && m.payload == Asked(OnProject(command)).1
            && ProjectIs(m.project.(lastEventSequence := sequence), current, command, id, at, sequence)
  {
  }

  lemma EffectIsBuilt(id: string, command: SideEffectCommand, current: Option<SideEffect>, at: nat, sequence: nat)
    requires BuildEffect(id, command, current, at).Success?
    requires current.Some? ==> current.value.actionId == id && ValidSideEffect(current.value)
    ensures var m := BuildEffect(id, command, current, at).value;
            && m.payload == Asked(OnSideEffect(command)).1
            && EffectIs(m.effect.(lastEventSequence := sequence), current, command, id, at, sequence)
  {
    hide UuidV7, ValidGrant;
  }

  lemma KindIsAsked(command: StoreCommand)
    ensures CommandKindOf(command) == Asked(command).0
  {
  }

  // -------------------------------------------------------- main results

  /** The event that a committed command leaves in the log. */
  ghost predicate Tells(e: Event, env: CommandEnvelope, eventId: string, sequence: nat) {
    && e.sequence == sequence && e.eventId == eventId && e.revision == env.expectedRevision + 1
    && e.payload == Asked(env.command).1 && e.causationEventId == env.causationEventId
    && e.request == Request(env.commandId, env.schemaVersion, Asked(env.command).0,
                            if env.command.OnProject? then ProjectAggregate else SideEffectAggregate,
                            env.aggregateId, env.expectedRevision, DigestOf(env), env.actor, env.correlationId,
                            env.occurredAt)
  }

  /** What every committed command leaves behind, whatever it does to its row: one event, one
      receipt, one audit row, and the reply. */
  ghost predicate IsLogged(db: Database, env: CommandEnvelope, eventId: string, c: Committed) {
    var n := |db.events| + 1;
    && |c.db.events| == n && c.db.events[..n-1] == db.events && Tells(c.db.events[n-1], env, eventId, n)
    && c.db.receipts
       == db.receipts[env.commandId := ReceiptRow(c.db.events[n-1].request, env.expectedRevision + 1, n, n)]
    && c.db.audit
       == db.audit + [AuditRow(Asked(env.command).0, env.commandId, env.correlationId, env.occurredAt)]
    && c.receipt == CommandReceipt(env.commandId, env.aggregateId, env.expectedRevision + 1, n, n, false)
  }

  /** Every row but one is untouched. */
  ghost predicate OnlyRow<T(!new)>(before: map<string, T>, after: map<string, T>, id: string) {
    && after.Keys == before.Keys + {id}
    && forall other :: other in before && other != id ==> after[other] == before[other]
  }

  ghost predicate IsWritten(db: Database, env: CommandEnvelope, after: Database) {
    var id, n := env.aggregateId, |db.events| + 1;
    match env.command
    case OnProject(command) =>
      && after.effects == db.effects && after.effectCursor == db.effectCursor && after.projectCursor == n
      && OnlyRow(db.projects, after.projects, id)
      && ProjectIs(after.projects[id], CurrentProject(db, id), command, id, env.occurredAt, n)
    case OnSideEffect(command) =>
      && after.projects == db.projects && after.projectCursor == db.projectCursor && after.effectCursor == n
      && OnlyRow(db.effects, after.effects, id)
      && EffectIs(after.effects[id], CurrentEffect(db, id), command, id, env.occurredAt, n)
  }

  lemma ProjectIsCarriedOut(db: Database, env: CommandEnvelope, command: ProjectCommand, eventId: string)
    requires Executable(db, env, eventId) && env.command == OnProject(command)
             && ExecuteProject(db, env, command, eventId).Success?
    ensures var c := ExecuteProject(db, env, command, eventId).value;
            IsLogged(db, env, eventId, c) && IsWritten(db, env, c.db)
  {
    hide Replay, ValidProject, ValidateEnvelope, ExecuteProject, BuildProject, ProjectIs, EffectIs;
    hide DistinctIds, Receipted, DistinctRoots, CommandKindOf, Asked, ProjectRowAllowed, RootTaken;
    var current, n := CurrentProject(db, env.aggregateId), |db.events| + 1;
    ReplayEstablishes(db.events);
    ProjectCommitted(db, env, command, eventId);
    ProjectIsBuilt(env.aggregateId, command, current, env.occurredAt, n);
    BuiltIsNamed(env.aggregateId, command, current, env.occurredAt);
    KindIsAsked(env.command);
  }

  lemma BuiltIsNamed(id: string, command: ProjectCommand, current: Option<Project>, at: nat)
    requires BuildProject(id, command, current, at).Success? && (current.Some? ==> current.value.id == id)
    ensures BuildProject(id, command, current, at).value.project.id == id
    ensures BuildProject(id, command, current, at).value.project.revision
         == (if current.Some? then current.value.revision else 0) + 1
  {
  }

  lemma EffectIsCarriedOut(db: Database, env: CommandEnvelope, command: SideEffectCommand, eventId: string)
    requires Executable(db, env, eventId) && env.command == OnSideEffect(command)
             && ExecuteEffect(db, env, command, eventId).Success?
    ensures var c := ExecuteEffect(db, env, command, eventId).value;
            IsLogged(db, env, eventId, c) && IsWritten(db, env, c.db)
  {
    hide Replay, ValidSideEffect, ValidateEnvelope, ExecuteEffect, BuildEffect, ProjectIs, EffectIs;
    hide DistinctIds, Receipted, DistinctRoots, CommandKindOf, Asked, EffectRowAllowed, ApplyEffect;
    var current, n := CurrentEffect(db, env.aggregateId), |db.events| + 1;
    ReplayEstablishes(db.events);
    EffectCommitted(db, env, command, eventId);
    EffectCommitReplays(db, env, command, eventId);
    EffectIsBuilt(env.aggregateId, command, current, env.occurredAt, n);
    EffectRevisionIsNext(env.aggregateId, command, current, env.occurredAt);
    KindIsAsked(env.command);
  }

  lemma EffectRevisionIsNext(id: string, command: SideEffectCommand, current: Option<SideEffect>, at: nat)
    requires BuildEffect(id, command, current, at).Success?
    ensures BuildEffect(id, command, current, at).value.effect.revision
         == (if current.Some? then current.value.revision else 0) + 1
  {
  }

  /** A command that commits does what it asks and nothing else: its event carries exactly its
      arguments, its row changes in exactly the fields it sets, besides revision, time and
      sequence number, and all other rows and tables stay. */
  lemma CommandIsCarriedOut(db: Database, env: CommandEnvelope, eventId: string)
    requires Consistent(db) && UuidV7(eventId)
    requires Execute(db, env, eventId).Success? && env.commandId !in db.receipts
    ensures var c := Execute(db, env, eventId).value;
            IsLogged(db, env, eventId, c) && IsWritten(db, env, c.db)
  {
    hide Consistent, ExecuteProject, ExecuteEffect, ValidateEnvelope, UuidV7, IsLogged, IsWritten;
    UsedEventIdIsRefused(db, env, eventId);
    match env.command {
      case OnProject(command) => ProjectIsCarriedOut(db, env, command, eventId);
      case OnSideEffect(command) => EffectIsCarriedOut(db, env, command, eventId);
    }
  }

  // ------------------------------------------------- what a replay takes

  /** The aggregate is in a state in which the command may be carried out at this time. */
  ghost predicate Ready(state: Replayed, command: StoreCommand, id: string, at: nat) {
    match command
    case OnProject(c) => ProjectReady(CurrentRow(state, id), c, at)
    case OnSideEffect(c) => EffectReady(if id in state.effects then Some(state.effects[id]) else None, c, at)
  }

  /** An event that this command could have written next. */
  ghost predicate CouldWrite(state: Replayed, command: StoreCommand, e: Event) {
    && Asked(command).1 == e.payload && AggregateTypeOf(command) == e.request.aggregateType && ValidCommand(command)
    && e.revision == RevisionIn(state, e.request.aggregateType, e.request.aggregateId) + 1
    && Ready(state, command, e.request.aggregateId, e.request.at)
  }

  /** A baseline event for a project that is not there yet. */
  ghost predicate CouldImport(state: Replayed, e: Event) {
    && e.request.aggregateType == ProjectAggregate && e.request.aggregateId !in state.projects
    && e.payload.ProjectImported? && ValidProject(e.payload.row)
    && e.payload.row.id == e.request.aggregateId && e.payload.row.revision == e.revision
  }

  /** Every identifier is a version-7 UUID, and a user has an identifier. */
  ghost predicate Identified(e: Event) {
    && UuidV7(e.eventId) && UuidV7(e.request.commandId) && UuidV7(e.request.aggregateId)
    && UuidV7(e.request.correlationId) && (e.causationEventId == None || UuidV7(e.causationEventId.value))
    && (if e.request.actor.actorId.Some? then Identifier(e.request.actor.actorId.value)
        else e.request.actor.kind == System)
  }

  lemma IdentifiedMeans(e: Event)
    ensures Identified(e) <==> ValidEventIds(e) && ValidActor(e.request.actor)
  {
    hide UuidV7, Identifier;
  }

  ghost predicate Acceptable(state: Replayed, e: Event) {
    && Identified(e)
    && (CouldImport(state, e) || exists command :: CouldWrite(state, command, e))
  }

  /** The command that an event stems from. */
  function Origin(e: Event): (command: StoreCommand)
    requires !e.payload.ProjectImported?
    ensures Asked(command).1 == e.payload
    ensures forall c :: Asked(c).1 == e.payload ==> c == command
  {
    match e.payload
    case ProjectCreated(project) => OnProject(Create(project))
    case ProjectRenamed(name) => OnProject(Rename(name))
    case ProjectTrustChanged(trust) => OnProject(SetTrust(trust))
    case ProjectWeightChanged(w) => OnProject(SetSchedulingWeight(w))
    case ProjectPolicyChanged(policy, data) => OnProject(SetPolicy(policy, data))
    case EffectAuthorized(grant, audit) => OnSideEffect(Authorize(grant, audit))
    case EffectStarted => OnSideEffect(Start)
    case EffectFinished(r) => OnSideEffect(Finish(r))
    case EffectOutcomeUnknown => OnSideEffect(MarkUnknown)
  }

  lemma ProjectEventTaken(current: Option<Project>, e: Event, command: ProjectCommand)
    requires current.Some? ==> GoodProject(e.request.aggregateId, current.value)
    requires UuidV7(e.request.aggregateId) && Asked(OnProject(command)).1 == e.payload
    ensures ReplayProject(current, e).Success? <==>
              && ValidCommand(OnProject(command)) && e.revision == ProjectRevision(current) + 1
              && ProjectReady(current, command, e.request.at)
    ensures ReplayProject(current, e).Success? ==>
              ProjectIs(ReplayProject(current, e).value, current, command, e.request.aggregateId, e.request.at,
                        e.sequence)
    ensures ReplayProject(current, e).Failure? ==> ReplayProject(current, e).error == IntegrityFailure
  {
    hide BoundedText, Identifier, Branch, RepoRoot, UuidV7, Weight;
  }

  lemma EffectEventTaken(current: Option<SideEffect>, e: Event, command: SideEffectCommand)
    requires current.Some? ==> GoodEffect(e.request.aggregateId, current.value)
    requires UuidV7(e.request.aggregateId) && Asked(OnSideEffect(command)).1 == e.payload
    ensures ReplayEffect(current, e).Success? <==>
              && ValidCommand(OnSideEffect(command)) && e.revision == EffectRevision(current) + 1
              && EffectReady(current, command, e.request.at)
    ensures ReplayEffect(current, e).Success? ==>
              EffectIs(ReplayEffect(current, e).value, current, command, e.request.aggregateId, e.request.at,
                       e.sequence)
    ensures ReplayEffect(current, e).Failure? ==> ReplayEffect(current, e).error == IntegrityFailure
  {
    hide BoundedText, Identifier, RepoRoot, UuidV7, ValidGrant, ValidAuditContext;
  }

  lemma ForeignEventRefused(current: Option<Project>, effect: Option<SideEffect>, e: Event)
    ensures AggregateOf(e.payload) != ProjectAggregate ==> ReplayProject(current, e) == Failure(IntegrityFailure)
    ensures e.payload.ProjectImported? ==>
              ReplayProject(current, e)
              == if current.None? && ValidProject(e.payload.row) && e.payload.row.id == e.request.aggregateId
                    && e.payload.row.revision == e.revision
                 then Success(e.payload.row.(lastEventSequence := e.sequence)) else Failure(IntegrityFailure)
  {
    hide BoundedText, Identifier, Branch, RepoRoot, UuidV7, Weight;
  }

  function CurrentRow(state: Replayed, id: string): Option<Project> {
    if id in state.projects then Some(state.projects[id]) else None
  }

  /** The tables after an event that was taken. */
  ghost predicate IsReplayed(state: Replayed, e: Event, after: Replayed) {
    var id := e.request.aggregateId;
    match e.request.aggregateType
    case ProjectAggregate =>
      && after.effects == state.effects && after.effectCursor == state.effectCursor && after.projectCursor == e.sequence
      && OnlyRow(state.projects, after.projects, id)
      && (if e.payload.ProjectImported? then after.projects[id] == e.payload.row.(lastEventSequence := e.sequence)
          else exists c :: Asked(OnProject(c)).1 == e.payload
                           && ProjectIs(after.projects[id], CurrentRow(state, id), c, id, e.request.at, e.sequence))
    case SideEffectAggregate =>
      && after.projects == state.projects && after.projectCursor == state.projectCursor
      && after.effectCursor == e.sequence && OnlyRow(state.effects, after.effects, id)
      && exists c :: Asked(OnSideEffect(c)).1 == e.payload
                     && EffectIs(after.effects[id], if id in state.effects then Some(state.effects[id]) else None,
                                 c, id, e.request.at, e.sequence)
  }

  lemma CouldWriteOnly(state: Replayed, e: Event, command: StoreCommand)
    requires !e.payload.ProjectImported? && command == Origin(e)
    ensures (exists c :: CouldWrite(state, c, e)) <==> CouldWrite(state, command, e)
  {
  }

  lemma ProjectStepTaken(state: Replayed, e: Event, command: ProjectCommand)
    requires forall id :: id in state.projects ==> GoodProject(id, state.projects[id])
    requires ValidEventIds(e) && ValidActor(e.request.actor)
    requires e.request.aggregateType == ProjectAggregate && Asked(OnProject(command)).1 == e.payload
    ensures var r := ReplayStep(state, e);
            && (r.Success? <==> Acceptable(state, e)) && (r.Success? ==> IsReplayed(state, e, r.value))
            && (r.Failure? ==> r.error == IntegrityFailure)
  {
    hide ValidProject, ValidCommand, ReplayProject, ProjectIs, ProjectReady, UuidV7, Identified, ValidActor;
    var id := e.request.aggregateId;
    IdentifiedMeans(e);
    ProjectEventTaken(CurrentRow(state, id), e, command);
    CouldWriteOnly(state, e, OnProject(command));
  }

  lemma EffectStepTaken(state: Replayed, e: Event, command: SideEffectCommand)
    requires forall id :: id in state.effects ==> GoodEffect(id, state.effects[id])
    requires ValidEventIds(e) && ValidActor(e.request.actor)
    requires e.request.aggregateType == SideEffectAggregate && Asked(OnSideEffect(command)).1 == e.payload
    ensures var r := ReplayStep(state, e);
            && (r.Success? <==> Acceptable(state, e)) && (r.Success? ==> IsReplayed(state, e, r.value))
            && (r.Failure? ==> r.error == IntegrityFailure)
  {
    hide ValidSideEffect, ValidCommand, ReplayEffect, EffectIs, EffectReady, UuidV7, Identified, ValidActor;
    var id := e.request.aggregateId;
    IdentifiedMeans(e);
    EffectEventTaken(if id in state.effects then Some(state.effects[id]) else None, e, command);
    CouldWriteOnly(state, e, OnSideEffect(command));
  }

  lemma StepTaken(state: Replayed, e: Event)
    requires forall id :: id in state.projects ==> GoodProject(id, state.projects[id])
    requires forall id :: id in state.effects ==> GoodEffect(id, state.effects[id])
    ensures var r := ReplayStep(state, e);
            && (r.Success? <==> Acceptable(state, e)) && (r.Success? ==> IsReplayed(state, e, r.value))
            && (r.Failure? ==> r.error == if Identified(e) && e.request.aggregateType != AggregateOf(e.payload)
                                          then UnsupportedEvent else IntegrityFailure)
  {
    hide ValidEventIds, ValidActor, GoodProject, GoodEffect, ReplayProject, ReplayEffect, ValidProject, ProjectIs,
         EffectIs, Identified;
    IdentifiedMeans(e);
    if ValidEventIds(e) && ValidActor(e.request.actor) {
      if e.payload.ProjectImported? {
        ForeignEventRefused(CurrentRow(state, e.request.aggregateId), None, e);
        assert forall c :: !CouldWrite(state, c, e);
      } else if e.request.aggregateType != AggregateOf(e.payload) {
        assert forall c :: Asked(c).1 == e.payload ==> AggregateTypeOf(c) != e.request.aggregateType;
      } else {
        match Origin(e)
        case OnProject(command) => ProjectStepTaken(state, e, command);
        case OnSideEffect(command) => EffectStepTaken(state, e, command);
      }
    }
  }

  /** Behind a log that replays, a replay takes exactly the events that a valid command, or the
      import of a project, could have written next, and yields the rows it would have written. */
  lemma ReplayTakesWhatIsWritten(events: seq<Event>, e: Event)
    requires Replay(events).Success? && Numbered(events)
    ensures var state, r := Replay(events).value, Replay(events + [e]);
            && (r.Success? <==> Acceptable(state, e))
            && (r.Success? ==> IsReplayed(state, e, r.value))
            && (r.Failure? ==> r.error == if Identified(e) && e.request.aggregateType != AggregateOf(e.payload)
                                          then UnsupportedEvent else IntegrityFailure)
  {
    hide ReplayStep, Acceptable, IsReplayed, GoodProject, GoodEffect, Identified;
    ReplayEstablishes(events);
    ReplayAppend(events, e);
    StepTaken(Replay(events).value, e);
  }

  // ------------------------------------------------------------ refusals

  /** The aggregate is in a state that does not permit the command, whatever the time. */
  ghost predicate Impermissible(db: Database, command: StoreCommand, id: string) {
    match command
    case OnProject(SetTrust(Trusted)) => id in db.projects && db.projects[id].trustState == Revoked
    case OnSideEffect(Start) => id in db.effects && db.effects[id].phase != Authorized
    case OnSideEffect(Finish(_)) => id in db.effects && db.effects[id].phase != Started
    case _ => false
  }

  /** The error of a command that is refused. */
  ghost function Refusal(db: Database, env: CommandEnvelope): StoreError {
    var actual := RevisionIn(StateOf(db), AggregateTypeOf(env.command), env.aggregateId);
    if env.schemaVersion != 1 then UnsupportedCommandSchema(env.schemaVersion)
    else if ValidateEnvelope(env).Failure? || env.command == OnSideEffect(MarkUnknown) then InvalidInput
    else if env.commandId in db.receipts then IdempotencyConflict(env.commandId)
    else if env.expectedRevision != actual then RevisionConflict(env.aggregateId, env.expectedRevision, actual)
    else if Asked(env.command).1.ProjectCreated? || Asked(env.command).1.EffectAuthorized? then
      if actual > 0 then AggregateAlreadyExists(env.aggregateId) else ConstraintViolation
    else if actual == 0 then AggregateNotFound(env.aggregateId)
    else if Impermissible(db, env.command, env.aggregateId) then InvalidTransition
    else InvalidInput
  }

  /** Where the execution of a project command stops. */
  lemma ProjectStops(db: Database, env: CommandEnvelope, command: ProjectCommand, eventId: string)
    requires Executable(db, env, eventId) && env.command == OnProject(command)
    requires ExecuteProject(db, env, command, eventId).Failure?
    ensures var current := CurrentProject(db, env.aggregateId);
            var built := BuildProject(env.aggregateId, command, current, env.occurredAt);
            ExecuteProject(db, env, command, eventId)
            == Failure(if env.expectedRevision != ProjectRevision(current) then
                         RevisionConflict(env.aggregateId, env.expectedRevision, ProjectRevision(current))
                       else if built.Failure? then built.error
                       else if !ValidProject(built.value.project) then InvalidInput
                       else ConstraintViolation)
  {
    var current := CurrentProject(db, env.aggregateId);
    assert current.Some? ==> GoodProject(env.aggregateId, current.value) by { ReplayEstablishes(db.events); }
    hide Consistent, ValidateEnvelope, BuildProject, ValidProject, ApplyProject, ReplayProject, NewEvent, Record;
    var built := BuildProject(env.aggregateId, command, current, env.occurredAt);
    if env.expectedRevision == ProjectRevision(current) && built.Success? && ValidProject(built.value.project) {
      ProjectBuilds(env, command, current);
      BuiltProjectReplays(env, command, current, 1, eventId);
      RecordSucceeds(db, env, built.value.payload, built.value.project.revision, eventId);
      RowIsConstrained(db.projects, built.value.project.(lastEventSequence := |db.events| + 1), current);
    }
  }

  lemma ProjectRefused(db: Database, env: CommandEnvelope, command: ProjectCommand, eventId: string)
    requires Executable(db, env, eventId) && env.command == OnProject(command)
    requires ExecuteProject(db, env, command, eventId).Failure?
    ensures ExecuteProject(db, env, command, eventId) == Failure(Refusal(db, env))
  {
    var current := CurrentProject(db, env.aggregateId);
    assert current.Some? ==> GoodProject(env.aggregateId, current.value) by { ReplayEstablishes(db.events); }
    ProjectStops(db, env, command, eventId);
    ProjectCommitCondition(db, env, command, eventId);
    hide Consistent, ValidateEnvelope, BuildProject, ValidProject, ExecuteProject, RootInUse;
    ProjectBuildFails(db, env.aggregateId, command, current, env.occurredAt);
    ProjectBuilds(env, command, current);
  }

  lemma ProjectBuildFails(db: Database, id: string, command: ProjectCommand, current: Option<Project>, at: nat)
    requires current == CurrentProject(db, id)
    ensures BuildProject(id, command, current, at).Failure? ==>
              BuildProject(id, command, current, at).error
              == if command.Create? then AggregateAlreadyExists(id)
                 else if current.None? then AggregateNotFound(id) else InvalidTransition
    ensures BuildProject(id, command, current, at).Success? <==>
              (command.Create? <==> current.None?) && !Impermissible(db, OnProject(command), id)
    ensures command.Create? && BuildProject(id, command, current, at).Success? ==>
              BuildProject(id, command, current, at).value.project == CreatedProject(id, command.project, 1, at, 0)
  {
  }

  lemma RowIsConstrained(projects: map<string, Project>, p: Project, current: Option<Project>)
    requires current.Some? ==> p.id in projects && projects[p.id].revision == p.revision - 1
    ensures ApplyProject(projects, p, current.None?).Failure? ==>
              ApplyProject(projects, p, current.None?) == Failure(ConstraintViolation)
  {
    hide ProjectRowAllowed, RootTaken;
  }

  lemma EffectBuildFails(db: Database, id: string, command: SideEffectCommand, current: Option<SideEffect>, at: nat)
    requires current == CurrentEffect(db, id) && command != MarkUnknown
    ensures BuildEffect(id, command, current, at).Failure? ==>
              BuildEffect(id, command, current, at).error
              == if command.Authorize? then AggregateAlreadyExists(id)
                 else if current.None? then AggregateNotFound(id) else InvalidTransition
    ensures BuildEffect(id, command, current, at).Success? <==>
              (command.Authorize? <==> current.None?) && !Impermissible(db, OnSideEffect(command), id)
  {
  }

  lemma EffectRefused(db: Database, env: CommandEnvelope, command: SideEffectCommand, eventId: string)
    requires Executable(db, env, eventId) && env.command == OnSideEffect(command) && command != MarkUnknown
    requires ExecuteEffect(db, env, command, eventId).Failure?
    ensures ExecuteEffect(db, env, command, eventId) == Failure(Refusal(db, env))
  {
    var current := CurrentEffect(db, env.aggregateId);
    assert current.Some? ==> GoodEffect(env.aggregateId, current.value) by { ReplayEstablishes(db.events); }
    EffectStops(db, env, command, eventId);
    EffectCommitCondition(db, env, command, eventId);
    hide Consistent, ValidateEnvelope, BuildEffect, ValidSideEffect, ExecuteEffect;
    EffectBuildFails(db, env.aggregateId, command, current, env.occurredAt);
    EffectBuilds(env, command, current);
  }

  lemma EffectStops(db: Database, env: CommandEnvelope, command: SideEffectCommand, eventId: string)
    requires Executable(db, env, eventId) && env.command == OnSideEffect(command)
    requires ExecuteEffect(db, env, command, eventId).Failure?
    ensures var current := CurrentEffect(db, env.aggregateId);
            var built := BuildEffect(env.aggregateId, command, current, env.occurredAt);
            ExecuteEffect(db, env, command, eventId)
            == Failure(if env.expectedRevision != EffectRevision(current) then
                         RevisionConflict(env.aggregateId, env.expectedRevision, EffectRevision(current))
                       else if built.Failure? then built.error
                       else InvalidInput)
  {
    var current := CurrentEffect(db, env.aggregateId);
    assert current.Some? ==> GoodEffect(env.aggregateId, current.value) by { ReplayEstablishes(db.events); }
    EnvelopeCommandValid(env);
    hide Consistent, ValidateEnvelope, BuildEffect, ValidSideEffect, ApplyEffect, ReplayEffect, NewEvent, Record,
         ValidCommand;
    var built := BuildEffect(env.aggregateId, command, current, env.occurredAt);
    EffectBuilds(env, command, current);
    if env.expectedRevision == EffectRevision(current) && built.Success? && ValidSideEffect(built.value.effect) {
      BuiltEffectReplays(env, command, current, 1, eventId);
      RecordSucceeds(db, env, built.value.payload, built.value.effect.revision, eventId);
      PlacedEffectIsValid(built.value.effect, |db.events| + 1);
      EffectRowApplies(db, built.value.effect.(lastEventSequence := |db.events| + 1), current);
    }
  }

  /** A command that does not succeed is refused with exactly this error, and what makes the
      difference between errors is looked at in this order. */
  lemma RefusalsAreExact(db: Database, env: CommandEnvelope, eventId: string)
    requires Consistent(db) && FreshEvent(db, eventId) && Execute(db, env, eventId).Failure?
    ensures Execute(db, env, eventId) == Failure(Refusal(db, env))
  {
    hide Consistent, ExecuteProject, ExecuteEffect, ValidateEnvelope, FreshEvent, Impermissible;
    SchemaIsFirst(env);
    if ValidateEnvelope(env).Success? && env.commandId !in db.receipts && env.command != OnSideEffect(MarkUnknown) {
      match env.command {
        case OnProject(command) => ProjectRefused(db, env, command, eventId);
        case OnSideEffect(command) => EffectRefused(db, env, command, eventId);
      }
    }
  }

  lemma ProjectEventViolates(db: Database, env: CommandEnvelope, command: ProjectCommand, eventId: string)
    requires Consistent(db) && ValidateEnvelope(env).Success? && env.command == OnProject(command)
    requires ProjectCommits(db, env, command)
    requires exists i :: 0 <= i < |db.events| && db.events[i].eventId == eventId
    ensures ExecuteProject(db, env, command, eventId) == Failure(ConstraintViolation)
  {
    var current := CurrentProject(db, env.aggregateId);
    assert current.Some? ==> GoodProject(env.aggregateId, current.value) by { ReplayEstablishes(db.events); }
    hide Consistent, ValidateEnvelope, BuildProject, ValidProject, ProjectReady, RootInUse, GoodProject, NewEvent,
         ApplyProject;
    ProjectBuilds(env, command, current);
    var m := BuildProject(env.aggregateId, command, current, env.occurredAt).value;
    RecordViolates(db, env, m.payload, m.project.revision, eventId);
    hide Record;
  }

  lemma EffectEventViolates(db: Database, env: CommandEnvelope, command: SideEffectCommand, eventId: string)
    requires Consistent(db) && ValidateEnvelope(env).Success? && env.command == OnSideEffect(command)
    requires EffectCommits(db, env, command)
    requires exists i :: 0 <= i < |db.events| && db.events[i].eventId == eventId
    ensures ExecuteEffect(db, env, command, eventId) == Failure(ConstraintViolation)
  {
    var current := CurrentEffect(db, env.aggregateId);
    assert current.Some? ==> GoodEffect(env.aggregateId, current.value) by { ReplayEstablishes(db.events); }
    hide Consistent, ValidateEnvelope, BuildEffect, ValidSideEffect, EffectReady, GoodEffect, NewEvent, ApplyEffect;
    EffectBuilds(env, command, current);
    var m := BuildEffect(env.aggregateId, command, current, env.occurredAt).value;
    RecordViolates(db, env, m.payload, m.effect.revision, eventId);
    hide Record;
  }

  lemma RecordViolates(db: Database, env: CommandEnvelope, payload: Payload, revision: nat, eventId: string)
    requires exists i :: 0 <= i < |db.events| && db.events[i].eventId == eventId
    ensures Record(db, env, payload, revision, eventId) == Failure(ConstraintViolation)
  {
  }

  /** A command that would commit is refused when the event id generated for it is in use. */
  lemma UsedEventIdViolates(db: Database, env: CommandEnvelope, eventId: string)
    requires Consistent(db) && ValidateEnvelope(env).Success? && env.commandId !in db.receipts
    requires env.command != OnSideEffect(MarkUnknown)
    requires match env.command
             case OnProject(command) => ProjectCommits(db, env, command)
             case OnSideEffect(command) => EffectCommits(db, env, command)
    requires exists i :: 0 <= i < |db.events| && db.events[i].eventId == eventId
    ensures Execute(db, env, eventId) == Failure(ConstraintViolation)
  {
    hide Consistent, ValidateEnvelope, ProjectCommits, EffectCommits, ExecuteProject, ExecuteEffect;
    match env.command {
      case OnProject(command) => ProjectEventViolates(db, env, command, eventId);
      case OnSideEffect(command) => EffectEventViolates(db, env, command, eventId);
    }
  }

  lemma SchemaIsFirst(env: CommandEnvelope)
    ensures ValidateEnvelope(env).Failure? ==>
              ValidateEnvelope(env).error
              == if env.schemaVersion != 1 then UnsupportedCommandSchema(env.schemaVersion) else InvalidInput
    ensures env.schemaVersion != 1 ==> ValidateEnvelope(env).Failure?
  {
    hide UuidV7, ValidActor, ValidCommand;
  }

  // ------------------------------------------------------------ start-up

  /** One audit row for each settled side effect, in order. */
  ghost predicate AuditSettled(db: Database, after: Database, count: nat, supply: nat -> FreshIds, now: nat) {
    && |after.audit| == |db.audit| + count && after.audit[..|db.audit|] == db.audit
    && forall i: nat :: i < count ==>
         after.audit[|db.audit| + i]
         == AuditRow("side_effect.mark_unknown", supply(i).commandId, supply(i).correlationId, now)
  }

  lemma SettlingIsAudited(db: Database, effect: SideEffect, ids: FreshIds, now: nat)
    requires RecoverOne(db, effect, ids, now).Success?
    ensures RecoverOne(db, effect, ids, now).value.audit
         == db.audit + [AuditRow("side_effect.mark_unknown", ids.commandId, ids.correlationId, now)]
  {
    hide ExecuteEffect, ValidateEnvelope, BuildEffect, ApplyEffect, NewEvent;
    EffectCommitted(db, RecoveryEnvelope(effect, ids, now), MarkUnknown, ids.eventId);
  }

  lemma {:induction false} RecoveryIsAudited(db: Database, found: seq<SideEffect>, supply: nat -> FreshIds, now: nat)
    requires RecoverAll(db, found, supply, now).Success?
    ensures AuditSettled(db, RecoverAll(db, found, supply, now).value, |found|, supply, now)
  {
    hide RecoverOne;
    if found == [] {
    } else {
      var last := |found| - 1;
      RecoveryIsAudited(db, found[..last], supply, now);
      SettlingIsAudited(RecoverAll(db, found[..last], supply, now).value, found[last], supply(last), now);
    }
  }

  /** The started side effects, each once, in ascending order of their action ids. */
  ghost predicate FoundInOrder(db: Database, found: seq<SideEffect>) {
    && (forall e :: e in found <==> e.actionId in db.effects && db.effects[e.actionId] == e && e.phase == Started)
    && (forall i, j :: 0 <= i < j < |found| ==>
          StringLeq(found[i].actionId, found[j].actionId) && found[i].actionId != found[j].actionId)
  }

  lemma StartedInOrder(db: Database)
    requires forall id :: id in db.effects ==> db.effects[id].actionId == id
    ensures FoundInOrder(db, StartedEffects(db))
  {
    var table, found := StartedTable(db), StartedEffects(db);
    var ids := AscendingKeys(table.Keys);
    RowsOfTable(table);
    forall e: SideEffect | e.actionId in db.effects && db.effects[e.actionId] == e && e.phase == Started
      ensures e in found
    {
      assert e.actionId in ids;
      var i :| 0 <= i < |ids| && ids[i] == e.actionId;
      assert found[i] == e;
    }
  }

  /** What recovery writes for a side effect: the event, and the row with only its outcome changed. */
  ghost predicate IsSettled(before: SideEffect, after: SideEffect, e: Event, ids: FreshIds, now: nat, n: nat) {
    var envelope := CommandEnvelope(1, ids.commandId, before.actionId, before.revision,
                                    Actor(System, Some("startup-recovery")), ids.correlationId, None, now,
                                    OnSideEffect(MarkUnknown));
    && Tells(e, envelope, ids.eventId, n)
    && EffectIs(after, Some(before), MarkUnknown, before.actionId, now, n)
  }

  /** Each of the found side effects was settled, and says so. */
  ghost predicate AllSpelledOut(db: Database, after: Database, found: seq<SideEffect>, supply: nat -> FreshIds,
                                now: nat) {
    && |after.events| == |db.events| + |found| && after.effects.Keys == db.effects.Keys
    && forall i :: 0 <= i < |found| ==>
         && found[i].actionId in after.effects
         && IsSettled(found[i], after.effects[found[i].actionId], after.events[|db.events| + i], supply(i), now,
                      |db.events| + i + 1)
  }

  lemma SettledIsSpelledOut(db: Database, after: Database, found: seq<SideEffect>, supply: nat -> FreshIds, now: nat)
    requires EffectsSettled(db, after, found, now) && LogSettled(db, after, found, supply, now)
    requires forall i :: 0 <= i < |found| ==> found[i].phase == Started && ValidSideEffect(found[i])
    ensures AllSpelledOut(db, after, found, supply, now)
  {
    hide IsSettled, Settled, SettlingEvent, ValidSideEffect;
    forall i | 0 <= i < |found|
      ensures IsSettled(found[i], after.effects[found[i].actionId], after.events[|db.events| + i], supply(i), now,
                        |db.events| + i + 1)
    {
      SettlingIsSpelledOut(found[i], supply(i), now, |db.events| + i + 1);
    }
  }

  /** Recovery, spelled out: the started side effects in ascending order of their action ids,
      each with its own event, row and audit row. */
  lemma RecoveryIsCarriedOut(db: Database, supply: nat -> FreshIds, now: nat)
    requires Consistent(db) && FreshSupply(db, supply, |StartedEffects(db)|) && ClockAllows(db, now)
    ensures var found, r := StartedEffects(db), Recover(db, supply, now);
            && FoundInOrder(db, found) && r.Success?
            && AllSpelledOut(db, r.value, found, supply, now) && AuditSettled(db, r.value, |found|, supply, now)
  {
    hide Consistent, FreshSupply, StartedEffects, ClockAllows, RecoverAll, NoneStarted, AuditSettled, EffectsSettled,
         LogSettled, ReceiptsSettled, AllSpelledOut, ValidSideEffect;
    RecoverySucceeds(db, supply, now);
    var found, after := StartedEffects(db), Recover(db, supply, now).value;
    RecoveryIsAudited(db, found, supply, now);
    AllEffectsGood(db);
    StartedInOrder(db);
    forall i | 0 <= i < |found| ensures found[i].phase == Started && ValidSideEffect(found[i]) {
      assert found[i] in found;
    }
    SettledIsSpelledOut(db, after, found, supply, now);
  }

  lemma AllEffectsGood(db: Database)
    requires Consistent(db)
    ensures forall id :: id in db.effects ==> db.effects[id].actionId == id && ValidSideEffect(db.effects[id])
  {
    hide ValidSideEffect;
    ReplayEstablishes(db.events);
  }

  lemma SettlingIsSpelledOut(effect: SideEffect, ids: FreshIds, now: nat, n: nat)
    requires effect.phase == Started && ValidSideEffect(effect)
    ensures IsSettled(effect, Settled(effect, now, n), SettlingEvent(effect, ids, now, n), ids, now, n)
  {
    hide UuidV7, ValidGrant;
  }

  // -------------------------------------------------------------- import

  /** What the migration leaves for one row. */
  ghost predicate IsImported(db: Database, row: Project, i: nat)
    requires i < |db.events| && i < |db.audit|
  {
    var request := Request(row.id, 1, "project.import", ProjectAggregate, row.id, 0, ZeroDigest,
                           Actor(System, Some("migration-v2")), row.id, row.updatedAt);
    && db.events[i] == Event(i + 1, row.id, row.revision, ProjectImported(row.(lastEventSequence := 0)), request, None)
    && row.id in db.receipts && db.receipts[row.id] == ReceiptRow(request, row.revision, i + 1, i + 1)
    && row.id in db.projects && db.projects[row.id] == row.(lastEventSequence := i + 1)
    && db.audit[i] == AuditRow("project.import", row.id, row.id, row.updatedAt)
  }

  lemma ImportSizes(rows: seq<Project>)
    requires DistinctRows(rows) && rows != []
    ensures var before, db, row := Import(rows[..|rows|-1]), Import(rows), rows[|rows|-1];
            && |db.events| == |before.events| + 1 && |db.audit| == |before.audit| + 1
            && |db.projects| == |before.projects| + 1 && db.effects == map[]
            && (forall i :: 0 <= i < |before.events| ==> db.events[i] == before.events[i])
            && (forall i :: 0 <= i < |before.audit| ==> db.audit[i] == before.audit[i])
            && db.receipts == before.receipts[row.id := db.receipts[row.id]]
            && db.projects == before.projects[row.id := db.projects[row.id]]
  {
    hide ImportEvent, ImportRequest;
    ImportedIdIsNew(rows);
  }

  lemma LastIsImported(rows: seq<Project>)
    requires rows != [] && |Import(rows).events| == |rows| == |Import(rows).audit|
    ensures IsImported(Import(rows), rows[|rows|-1], |rows| - 1)
  {
  }

  /** The tables that the migration leaves, row by row. */
  lemma {:induction false} ImportIsSpelledOut(rows: seq<Project>)
    requires DistinctRows(rows)
    ensures var db := Import(rows);
            && |db.events| == |rows| == |db.audit| == |db.projects| && db.effects == map[]
            && forall i :: 0 <= i < |rows| ==> IsImported(db, rows[i], i)
  {
    if rows == [] {
    } else {
      var init := rows[..|rows|-1];
      ImportIsSpelledOut(init);
      ImportSizes(rows);
      hide Import;
      LastIsImported(rows);
      forall i | 0 <= i < |init| ensures IsImported(Import(rows), rows[i], i) {
        assert rows[i] == init[i] && init[i].id != rows[|init|].id;
        assert IsImported(Import(init), init[i], i);
      }
    }
  }

  // --------------------------------------------------------------- trust

  /** Wherever a history says revoked and later trusted, it says untrusted in between. */
  ghost predicate TrustIsRegained(history: seq<Event>) {
    forall i, j :: 0 <= i < j < |history|
                   && TrustIn(history[i].payload) == Some(Revoked) && TrustIn(history[j].payload) == Some(Trusted) ==>
      UntrustedBetween(history, i, j)
  }

  /** Event m is the last one that speaks of trust. */
  ghost predicate SaidLast(history: seq<Event>, m: nat) {
    && m < |history| && TrustIn(history[m].payload) == LastOf(history, TrustIn)
    && forall k :: m < k < |history| ==> TrustIn(history[k].payload) == None
  }

  lemma {:induction false} LastSaid(history: seq<Event>) returns (m: nat)
    requires LastOf(history, TrustIn).Some?
    ensures SaidLast(history, m)
  {
    hide TrustIn;
    var init, last := history[..|history|-1], |history| - 1;
    if TrustIn(history[last].payload).Some? {
      m := last;
    } else {
      m := LastSaid(init);
      assert forall k :: 0 <= k < |init| ==> history[k] == init[k];
    }
  }

  ghost predicate UntrustedBetween(history: seq<Event>, i: nat, j: nat) {
    exists k :: i < k < j && k < |history| && TrustIn(history[k].payload) == Some(TrustState.Untrusted)
  }

  lemma BetweenStays(history: seq<Event>, e: Event, i: nat, j: nat)
    requires UntrustedBetween(history, i, j)
    ensures UntrustedBetween(history + [e], i, j)
  {
    var k :| i < k < j && k < |history| && TrustIn(history[k].payload) == Some(TrustState.Untrusted);
    assert (history + [e])[k] == history[k];
  }

  /** What was revoked was untrusted again before it is trusted now. */
  lemma TrustComesBack(history: seq<Event>, current: Option<Project>, e: Event, i: nat)
    requires TrustIsRegained(history) && LastWritten(history, current) && ReplayProject(current, e).Success?
    requires i < |history| && TrustIn(history[i].payload) == Some(Revoked) && TrustIn(e.payload) == Some(Trusted)
    ensures UntrustedBetween(history, i, |history|)
  {
    TrustedAfter(current, e);
    assert LastOf(history, TrustIn) == Some(current.value.trustState);
    hide LastWritten, ReplayProject, LastOf, TrustIn;
    var m := LastSaid(history);
    assert i < m;
    if TrustIn(history[m].payload) == Some(Trusted) {
      assert UntrustedBetween(history, i, m);
    }
  }

  lemma TrustStepFollows(history: seq<Event>, current: Option<Project>, e: Event)
    requires TrustIsRegained(history) && LastWritten(history, current) && ReplayProject(current, e).Success?
    ensures TrustIsRegained(history + [e])
  {
    hide LastWritten, ReplayProject, TrustIn, UntrustedBetween;
    var longer := history + [e];
    forall i, j | 0 <= i < j < |longer|
        && TrustIn(longer[i].payload) == Some(Revoked) && TrustIn(longer[j].payload) == Some(Trusted)
      ensures UntrustedBetween(longer, i, j)
    {
      if j == |history| {
        TrustComesBack(history, current, e, i);
      }
      BetweenStays(history, e, i, j);
    }
  }

  lemma TrustedAfter(current: Option<Project>, e: Event)
    requires ReplayProject(current, e).Success? && TrustIn(e.payload) == Some(Trusted) && current.Some?
    ensures current.value.trustState != Revoked
  {
    hide ValidProject;
  }

  /** In every log that replays, a project whose trust was revoked is trusted again only after it
      has been untrusted in between. */
  lemma {:induction false} RevokedIsNotTrustedAtOnce(events: seq<Event>, id: string)
    requires Replay(events).Success?
    ensures TrustIsRegained(HistoryOf(events, ProjectAggregate, id))
  {
    hide LastWritten, ReplayEffect, ReplayProject, ValidEventIds, ValidActor, TrustIsRegained;
    if events == [] {
      assert TrustIsRegained([]) by { NothingSaid(); }
    } else {
      var init, e := events[..|events|-1], events[|events|-1];
      RevokedIsNotTrustedAtOnce(init, id);
      ProjectsHoldWhatWasWritten(init, id);
      var state := Replay(init).value;
      if e.request.aggregateType == ProjectAggregate && e.request.aggregateId == id {
        TrustStepFollows(HistoryOf(init, ProjectAggregate, id),
                         if id in state.projects then Some(state.projects[id]) else None, e);
      } else {
        assert HistoryOf(events, ProjectAggregate, id) == HistoryOf(init, ProjectAggregate, id);
      }
    }
  }

  lemma NothingSaid()
    ensures TrustIsRegained([])
  {
  }
}
