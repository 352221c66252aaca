/** The tables of the store as one value, and every operation on them as a function: a
    transaction either yields new tables or an error. */
module StoreTables {
  import opened Orders
  import opened StoreModel
  import opened Wrappers

  datatype Database = Database(
    events: seq<Event>, receipts: map<string, ReceiptRow>,
    projects: map<string, Project>, effects: map<string, SideEffect>,
    projectCursor: nat, effectCursor: nat, audit: seq<AuditRow>)

  const EMPTY: Database := Database([], map[], map[], map[], 0, 0, [])

  // ----------------------------------------------- projects: next record

  datatype ProjectMutation = ProjectMutation(payload: Payload, project: Project)

  function BuildProject(id: string, command: ProjectCommand, current: Option<Project>,
      at: nat): Result<ProjectMutation, StoreError>
  {
    match command
    case Create(c) =>
      if current.Some? then Failure(AggregateAlreadyExists(id))
      else Success(ProjectMutation(ProjectCreated(c), CreatedProject(id, c, 1, at, 0)))
    case _ =>
      if current.None? then Failure(AggregateNotFound(id))
      else
        var p := current.value.(revision := current.value.revision + 1, updatedAt := at);
        match command
        case Rename(name) => Success(ProjectMutation(ProjectRenamed(name), p.(displayName := name)))
        case SetTrust(trust) =>
          if !ValidTrustTransition(p.trustState, trust) then Failure(InvalidTransition)
          else Success(ProjectMutation(ProjectTrustChanged(trust), p.(trustState := trust)))
        case SetSchedulingWeight(w) => Success(ProjectMutation(ProjectWeightChanged(w), p.(weight := w)))
        case SetPolicy(policy, data) =>
          Success(ProjectMutation(ProjectPolicyChanged(policy, data),
                                  p.(providerPolicy := policy, dataClassification := data)))
  }

  function CreatedProject(id: string, c: CreateProject, revision: nat, at: nat, sequence: nat): Project {
    Project(id, c.displayName, c.repoRoot, c.repoIdentity, c.defaultBranch, Untrusted, c.weight,
            c.providerPolicy, c.dataClassification, revision, at, at, sequence)
  }

  function ReplayProject(current: Option<Project>, e: Event): Result<Project, StoreError> {
    var id, at, sequence := e.request.aggregateId, e.request.at, e.sequence;
    var next: Result<Project, StoreError> :=
      match e.payload
      case ProjectCreated(c) =>
        if current.Some? || e.revision != 1 then Failure(IntegrityFailure)
        else Success(CreatedProject(id, c, e.revision, at, sequence))
      case ProjectImported(row) =>
        if current.Some? || !ValidProject(row) || row.id != id || row.revision != e.revision
        then Failure(IntegrityFailure)
        else Success(row)
      case _ =>
        if current.None? || e.revision != current.value.revision + 1 then Failure(IntegrityFailure)
        else
          var p := current.value.(revision := e.revision, updatedAt := at);
          match e.payload
          case ProjectRenamed(name) => Success(p.(displayName := name))
          case ProjectTrustChanged(trust) =>
            if !ValidTrustTransition(p.trustState, trust) then Failure(IntegrityFailure)
            else Success(p.(trustState := trust))
          case ProjectWeightChanged(w) => Success(p.(weight := w))
          case ProjectPolicyChanged(policy, data) => Success(p.(providerPolicy := policy, dataClassification := data))
          case _ => Failure(IntegrityFailure);
    match next
    case Failure(error) => Failure(error)
    case Success(p) =>
      var placed := p.(lastEventSequence := sequence);
      if ValidProject(placed) then Success(placed) else Failure(IntegrityFailure)
  }

  // ------------------------------------------- side effects: next record

  datatype EffectMutation = EffectMutation(payload: Payload, effect: SideEffect)

  function BuildEffect(id: string, command: SideEffectCommand, current: Option<SideEffect>,
      at: nat): Result<EffectMutation, StoreError>
  {
    match command
    case Authorize(grant, audit) =>
      if current.Some? then Failure(AggregateAlreadyExists(id))
      else Success(EffectMutation(EffectAuthorized(grant, audit), AuthorizedEffect(id, grant, 1, at, 0)))
    case _ =>
      if current.None? then Failure(AggregateNotFound(id))
      else
        var e := current.value.(revision := current.value.revision + 1, updatedAt := at);
        match command
        case Start =>
          if e.phase != Authorized then Failure(InvalidTransition)
          else Success(EffectMutation(EffectStarted, e.(phase := Started, startedAt := Some(at))))
        case Finish(r) =>
          if e.phase != Started then Failure(InvalidTransition)
          else Success(EffectMutation(EffectFinished(r),
                                      e.(phase := Finished, resultClass := Some(r), finishedAt := Some(at))))
        case MarkUnknown =>
          if e.phase != Started then Failure(InvalidTransition)
          else Success(EffectMutation(EffectOutcomeUnknown, e.(phase := Unknown)))
  }

  function AuthorizedEffect(id: string, grant: Grant, revision: nat, at: nat, sequence: nat): SideEffect {
    SideEffect(id, grant, Authorized, revision, None, at, None, None, at, sequence)
  }

  function ReplayEffect(current: Option<SideEffect>, e: Event): Result<SideEffect, StoreError> {
    var id, at, sequence := e.request.aggregateId, e.request.at, e.sequence;
    var next: Result<SideEffect, StoreError> :=
      match e.payload
      case EffectAuthorized(grant, audit) =>
        if current.Some? || e.revision != 1 || !ValidAuditContext(audit) then Failure(IntegrityFailure)
        else Success(AuthorizedEffect(id, grant, e.revision, at, sequence))
      case _ =>
        if current.None? || e.revision != current.value.revision + 1 then Failure(IntegrityFailure)
        else
          var s := current.value.(revision := e.revision, updatedAt := at, lastEventSequence := sequence);
          match e.payload
          case EffectStarted =>
            if s.phase == Authorized then Success(s.(phase := Started, startedAt := Some(at)))
            else Failure(IntegrityFailure)
          case EffectFinished(r) =>
            if s.phase == Started then Success(s.(phase := Finished, resultClass := Some(r), finishedAt := Some(at)))
            else Failure(IntegrityFailure)
          case EffectOutcomeUnknown =>
            if s.phase == Started then Success(s.(phase := Unknown)) else Failure(IntegrityFailure)
          case _ => Failure(IntegrityFailure);
    match next
    case Failure(error) => Failure(error)
    case Success(s) => if ValidSideEffect(s) then Success(s) else Failure(IntegrityFailure)
  }

  // ------------------------------------------------------- table inserts

  predicate ProjectRowAllowed(p: Project) {
    && 1 <= |p.displayName| <= 200 && 1 <= |p.repoIdentity| <= 512 && 1 <= |p.defaultBranch| <= 255
    && 0.1 <= p.weight <= 100.0 && 1 <= |p.providerPolicy| <= 128 && 1 <= |p.dataClassification| <= 128
    && p.revision > 0 && p.updatedAt >= p.createdAt && p.lastEventSequence > 0
  }

  predicate EffectRowAllowed(e: SideEffect) {
    && e.revision > 0 && e.updatedAt >= e.authorizedAt && e.lastEventSequence > 0
    && (match e.phase
        case Authorized => e.startedAt == None && e.finishedAt == None
        case Finished => e.startedAt.Some? && e.finishedAt.Some?
        case _ => e.startedAt.Some? && e.finishedAt == None)
  }

  /** Some other row has the repository root. */
  predicate RootTaken(projects: map<string, Project>, p: Project) {
    exists id :: id in projects && id != p.id && projects[id].repoRoot == p.repoRoot
  }

  function ApplyProject(projects: map<string, Project>, p: Project,
      isCreate: bool): Result<map<string, Project>, StoreError>
  {
    if isCreate && p.id in projects then Failure(ConstraintViolation)
    else if !isCreate && (p.id !in projects || projects[p.id].revision != p.revision - 1) then Failure(IntegrityFailure)
    else if RootTaken(projects, p) || !ProjectRowAllowed(p) then Failure(ConstraintViolation)
    else Success(projects[p.id := p])
  }

  /** An update writes only the columns that change after authorization. */
  function UpdatedEffect(stored: SideEffect, e: SideEffect): SideEffect {
    stored.(phase := e.phase, revision := e.revision, resultClass := e.resultClass, startedAt := e.startedAt,
          finishedAt := e.finishedAt, updatedAt := e.updatedAt, lastEventSequence := e.lastEventSequence)
  }

  function ApplyEffect(effects: map<string, SideEffect>, e: SideEffect,
      isCreate: bool): Result<map<string, SideEffect>, StoreError>
  {
    if isCreate && e.actionId in effects then Failure(ConstraintViolation)
    else if !isCreate && (e.actionId !in effects || effects[e.actionId].revision != e.revision - 1)
    then Failure(IntegrityFailure)
    else
      var row := if isCreate then e else UpdatedEffect(effects[e.actionId], e);
      if EffectRowAllowed(row) then Success(effects[e.actionId := row]) else Failure(ConstraintViolation)
  }

  /** The unique keys of the event table. */
  predicate EventConflicts(events: seq<Event>, e: Event) {
    exists i :: 0 <= i < |events|
                && (events[i].eventId == e.eventId
                    || (events[i].request.aggregateType == e.request.aggregateType
                        && events[i].request.aggregateId == e.request.aggregateId && events[i].revision == e.revision))
  }

  function NewEvent(sequence: nat, env: CommandEnvelope, payload: Payload, revision: nat, eventId: string): Event {
    Event(sequence, eventId, revision, payload,
          Request(env.commandId, env.schemaVersion, CommandKindOf(env.command), AggregateTypeOf(env.command),
                  env.aggregateId, env.expectedRevision, DigestOf(env), env.actor, env.correlationId, env.occurredAt),
          env.causationEventId)
  }

  /** Event and receipt of one command; the sequence number is the next one. */
  function Record(db: Database, env: CommandEnvelope, payload: Payload, revision: nat,
      eventId: string): Result<Database, StoreError>
  {
    var e := NewEvent(|db.events| + 1, env, payload, revision, eventId);
    if EventConflicts(db.events, e) || env.commandId in db.receipts then Failure(ConstraintViolation)
    else
      Success(db.(events := db.events + [e],
                  receipts := db.receipts[env.commandId := ReceiptRow(e.request, revision, e.sequence, e.sequence)]))
  }

  function Audited(db: Database, env: CommandEnvelope): Database {
    db.(audit := db.audit + [AuditRow(CommandKindOf(env.command), env.commandId, env.correlationId, env.occurredAt)])
  }

  function ReceiptFor(env: CommandEnvelope, revision: nat, sequence: nat): CommandReceipt {
    CommandReceipt(env.commandId, env.aggregateId, revision, sequence, sequence, false)
  }

  datatype Committed = Committed(db: Database, receipt: CommandReceipt)

  function CurrentProject(db: Database, id: string): Option<Project> {
    if id in db.projects then Some(db.projects[id]) else None
  }

  function CurrentEffect(db: Database, id: string): Option<SideEffect> {
    if id in db.effects then Some(db.effects[id]) else None
  }

  function ExecuteProject(db: Database, env: CommandEnvelope, command: ProjectCommand,
      eventId: string): Result<Committed, StoreError>
  {
    var current := CurrentProject(db, env.aggregateId);
    var actual := if current.Some? then current.value.revision else 0;
    if env.expectedRevision != actual then Failure(RevisionConflict(env.aggregateId, env.expectedRevision, actual))
    else
      match BuildProject(env.aggregateId, command, current, env.occurredAt)
      case Failure(error) => Failure(error)
      case Success(m) =>
        if !ValidProject(m.project) then Failure(InvalidInput)
        else
          match Record(db, env, m.payload, m.project.revision, eventId)
          case Failure(error) => Failure(error)
          case Success(recorded) =>
            var sequence := |db.events| + 1;
            match ApplyProject(recorded.projects, m.project.(lastEventSequence := sequence), current.None?)
            case Failure(error) => Failure(error)
            case Success(projects) =>
              Success(Committed(Audited(recorded.(projects := projects, projectCursor := sequence), env),
                                ReceiptFor(env, m.project.revision, sequence)))
  }

  function ExecuteEffect(db: Database, env: CommandEnvelope, command: SideEffectCommand,
      eventId: string): Result<Committed, StoreError>
  {
    var current := CurrentEffect(db, env.aggregateId);
    var actual := if current.Some? then current.value.revision else 0;
    if env.expectedRevision != actual then Failure(RevisionConflict(env.aggregateId, env.expectedRevision, actual))
    else
      match BuildEffect(env.aggregateId, command, current, env.occurredAt)
      case Failure(error) => Failure(error)
      case Success(m) =>
        if !ValidSideEffect(m.effect) then Failure(InvalidInput)
        else
          match Record(db, env, m.payload, m.effect.revision, eventId)
          case Failure(error) => Failure(error)
          case Success(recorded) =>
            var sequence := |db.events| + 1;
            match ApplyEffect(recorded.effects, m.effect.(lastEventSequence := sequence), current.None?)
            case Failure(error) => Failure(error)
            case Success(effects) =>
              Success(Committed(Audited(recorded.(effects := effects, effectCursor := sequence), env),
                                ReceiptFor(env, m.effect.revision, sequence)))
  }

  /** A client's command: validated, refused when startup-only, answered from its receipt when
      it was committed before, otherwise executed. */
  function Execute(db: Database, env: CommandEnvelope, eventId: string): Result<Committed, StoreError> {
    match ValidateEnvelope(env)
    case Failure(error) => Failure(error)
    case Success(_) =>
      if env.command == OnSideEffect(MarkUnknown) then Failure(InvalidInput)
      else if env.commandId in db.receipts then
        var row := db.receipts[env.commandId];
        if row.request.digest != DigestOf(env) then Failure(IdempotencyConflict(env.commandId))
        else Success(Committed(db, CommandReceipt(env.commandId, row.request.aggregateId, row.revision,
                                                  row.firstSequence, row.lastSequence, true)))
      else
        match env.command
        case OnProject(command) => ExecuteProject(db, env, command, eventId)
        case OnSideEffect(command) => ExecuteEffect(db, env, command, eventId)
  }

  // -------------------------------------------------------------- replay

  datatype Replayed = Replayed(
    projects: map<string, Project>, effects: map<string, SideEffect>, projectCursor: nat, effectCursor: nat)

  predicate ValidEventIds(e: Event) {
    && UuidV7(e.request.aggregateId) && UuidV7(e.eventId) && UuidV7(e.request.commandId)
    && UuidV7(e.request.correlationId)
    && (e.causationEventId.Some? ==> UuidV7(e.causationEventId.value))
  }

  function ReplayStep(state: Replayed, e: Event): Result<Replayed, StoreError> {
    if !ValidEventIds(e) || !ValidActor(e.request.actor) then Failure(IntegrityFailure)
    else if e.request.aggregateType != AggregateOf(e.payload) then Failure(UnsupportedEvent)
    else
      var id := e.request.aggregateId;
      match e.request.aggregateType
      case ProjectAggregate =>
        (match ReplayProject(if id in state.projects then Some(state.projects[id]) else None, e)
         case Failure(error) => Failure(error)
         case Success(p) => Success(state.(projects := state.projects[id := p], projectCursor := e.sequence)))
      case SideEffectAggregate =>
        (match ReplayEffect(if id in state.effects then Some(state.effects[id]) else None, e)
         case Failure(error) => Failure(error)
         case Success(s) => Success(state.(effects := state.effects[id := s], effectCursor := e.sequence)))
  }

  function Replay(events: seq<Event>): Result<Replayed, StoreError> {
    if events == [] then Success(Replayed(map[], map[], 0, 0))
    else
      match Replay(events[..|events|-1])
      case Failure(error) => Failure(error)
      case Success(state) => ReplayStep(state, events[|events|-1])
  }

  // -------------------------------------------------------- verification

  /** The events of a command, in log order. */
  function EventsOf(events: seq<Event>, commandId: string): seq<Event> {
    if events == [] then []
    else
      var e := events[|events|-1];
      EventsOf(events[..|events|-1], commandId) + if e.request.commandId == commandId then [e] else []
  }

  /** A receipt covers exactly the events of its command and repeats their request. */
  predicate ReceiptMatches(events: seq<Event>, commandId: string, row: ReceiptRow) {
    var mine := EventsOf(events, commandId);
    && mine != [] && row.request.commandId == commandId
    && |mine| == row.lastSequence - row.firstSequence + 1
    && mine[0].sequence == row.firstSequence && mine[|mine|-1].sequence == row.lastSequence
    && mine[|mine|-1].revision == row.revision
    && (forall i :: 0 <= i < |mine| ==> mine[i].request == row.request)
  }

  predicate LedgerIntact(db: Database) {
    forall id :: id in db.receipts ==> ReceiptMatches(db.events, id, db.receipts[id])
  }

  datatype Report = Report(eventCount: nat, projectCount: nat, effectCount: nat, rebuilt: bool)

  /** The rows of a table in ascending order of their keys. */
  function RowsOf<T>(table: map<string, T>): seq<T> {
    var ids := AscendingKeys(table.Keys);
    seq(|ids|, i requires 0 <= i < |ids| => assert ids[i] in ids; table[ids[i]])
  }

  function RebuildProjects(rows: seq<Project>): Result<map<string, Project>, StoreError> {
    if rows == [] then Success(map[])
    else
      match RebuildProjects(rows[..|rows|-1])
      case Failure(error) => Failure(error)
      case Success(table) => ApplyProject(table, rows[|rows|-1], true)
  }

  function RebuildEffects(rows: seq<SideEffect>): Result<map<string, SideEffect>, StoreError> {
    if rows == [] then Success(map[])
    else
      match RebuildEffects(rows[..|rows|-1])
      case Failure(error) => Failure(error)
      case Success(table) => ApplyEffect(table, rows[|rows|-1], true)
  }

  /** Identifiers and time of the audit row written by a repair. */
  datatype RepairStamp = RepairStamp(commandId: string, correlationId: string, at: nat)

  predicate ProjectsDiffer(db: Database, expected: Replayed) {
    expected.projects != db.projects || expected.projectCursor != db.projectCursor
  }

  predicate EffectsDiffer(db: Database, expected: Replayed) {
    expected.effects != db.effects || expected.effectCursor != db.effectCursor
  }

  function Repair(db: Database, expected: Replayed, stamp: RepairStamp): Result<Database, StoreError> {
    var rows: Result<map<string, Project>, StoreError> :=
      if ProjectsDiffer(db, expected) then RebuildProjects(RowsOf(expected.projects))
      else Success(db.projects);
    match rows
    case Failure(error) => Failure(error)
    case Success(projects) =>
      var more: Result<map<string, SideEffect>, StoreError> :=
        if EffectsDiffer(db, expected) then RebuildEffects(RowsOf(expected.effects))
        else Success(db.effects);
      match more
      case Failure(error) => Failure(error)
      case Success(effects) =>
        Success(db.(projects := projects, effects := effects,
                    projectCursor := expected.projectCursor, effectCursor := expected.effectCursor,
                    audit := db.audit + [AuditRow("store.projection_rebuilt", stamp.commandId, stamp.correlationId,
                                                  stamp.at)]))
  }

  datatype Verified = Verified(db: Database, report: Report)

  function Verify(db: Database, repair: bool, stamp: RepairStamp): Result<Verified, StoreError> {
    if !LedgerIntact(db) then Failure(IntegrityFailure)
    else
      match Replay(db.events)
      case Failure(error) => Failure(error)
      case Success(expected) =>
        var mismatch := ProjectsDiffer(db, expected) || EffectsDiffer(db, expected);
        var report := Report(|db.events|, |expected.projects|, |expected.effects|, mismatch);
        if !mismatch then Success(Verified(db, report))
        else if !repair then Failure(IntegrityFailure)
        else
          match Repair(db, expected, stamp)
          case Failure(error) => Failure(error)
          case Success(repaired) => Success(Verified(repaired, report))
  }

  // ------------------------------------------------------------ recovery

  datatype FreshIds = FreshIds(commandId: string, correlationId: string, eventId: string)

  function StartedTable(db: Database): map<string, SideEffect> {
    map id | id in db.effects && db.effects[id].phase == Started :: db.effects[id]
  }

  function StartedEffects(db: Database): seq<SideEffect> {
    RowsOf(StartedTable(db))
  }

  function RecoveryEnvelope(effect: SideEffect, ids: FreshIds, now: nat): CommandEnvelope {
    CommandEnvelope(COMMAND_SCHEMA_VERSION, ids.commandId, effect.actionId, effect.revision,
                    Actor(System, Some("startup-recovery")), ids.correlationId, None, now, OnSideEffect(MarkUnknown))
  }

  /** Marks one interrupted side effect unknown. */
  function RecoverOne(db: Database, effect: SideEffect, ids: FreshIds, now: nat): Result<Database, StoreError> {
    var env := RecoveryEnvelope(effect, ids, now);
    match ValidateEnvelope(env)
    case Failure(error) => Failure(error)
    case Success(_) =>
      match ExecuteEffect(db, env, MarkUnknown, ids.eventId)
      case Failure(error) => Failure(error)
      case Success(c) => Success(c.db)
  }

  function RecoverAll(db: Database, found: seq<SideEffect>, supply: nat -> FreshIds,
      now: nat): Result<Database, StoreError>
  {
    if found == [] then Success(db)
    else
      var last := |found| - 1;
      match RecoverAll(db, found[..last], supply, now)
      case Failure(error) => Failure(error)
      case Success(before) => RecoverOne(before, found[last], supply(last), now)
  }

  function Recover(db: Database, supply: nat -> FreshIds, now: nat): Result<Database, StoreError> {
    RecoverAll(db, StartedEffects(db), supply, now)
  }

  datatype OpenReport = OpenReport(verification: Report, recovered: nat)

  datatype Opened = Opened(db: Database, outcome: Result<OpenReport, StoreError>)

  /** Start-up: repair the projections, then settle interrupted side effects. The two are
      separate transactions. */
  function Open(db: Database, stamp: RepairStamp, supply: nat -> FreshIds, now: nat): Opened {
    match Verify(db, true, stamp)
    case Failure(error) => Opened(db, Failure(error))
    case Success(v) =>
      match Recover(v.db, supply, now)
      case Failure(error) => Opened(v.db, Failure(error))
      case Success(recovered) => Opened(recovered, Success(OpenReport(v.report, |StartedEffects(v.db)|)))
  }

  // -------------------------------------------- import of version-1 rows

  function ImportEvent(row: Project, sequence: nat): Event {
    Event(sequence, row.id, row.revision, ProjectImported(row.(lastEventSequence := 0)), ImportRequest(row), None)
  }

  function ImportRequest(row: Project): Request {
    Request(row.id, 1, "project.import", ProjectAggregate, row.id, 0, ZeroDigest, Actor(System, Some("migration-v2")),
            row.id, row.updatedAt)
  }

  /** The tables after the migration that turns existing project rows into baseline events. */
  function Import(rows: seq<Project>): Database {
    if rows == [] then EMPTY
    else
      var before := Import(rows[..|rows|-1]);
      var row := rows[|rows|-1];
      Database(before.events + [ImportEvent(row, |rows|)],
               before.receipts[row.id := ReceiptRow(ImportRequest(row), row.revision, |rows|, |rows|)],
               before.projects[row.id := row.(lastEventSequence := |rows|)], map[], |rows|, 0,
               before.audit + [AuditRow("project.import", row.id, row.id, row.updatedAt)])
  }

  ghost predicate ImportedProjects(rows: seq<Project>, projects: map<string, Project>) {
    forall id :: id in projects ==>
             exists i :: 0 <= i < |rows| && rows[i].id == id && projects[id] == rows[i].(lastEventSequence := i + 1)
  }

  lemma {:induction false} ImportContents(rows: seq<Project>)
    ensures var db := Import(rows);
            && |db.events| == |rows| && (forall i :: 0 <= i < |rows| ==> db.events[i] == ImportEvent(rows[i], i + 1))
            && ImportedProjects(rows, db.projects)
            && db.effects == map[] && db.projectCursor == |rows| && db.effectCursor == 0
  {
    if rows == [] {
    } else {
      var init, row := rows[..|rows|-1], rows[|rows|-1];
      ImportContents(init);
      var before, db := Import(init), Import(rows);
      forall id | id in db.projects
        ensures exists i ::
                  0 <= i < |rows| && rows[i].id == id && db.projects[id] == rows[i].(lastEventSequence := i + 1)
      {
        if id == row.id {
          assert rows[|init|].id == id;
        } else {
          var i :| 0 <= i < |init| && init[i].id == id && before.projects[id] == init[i].(lastEventSequence := i + 1);
          assert rows[i] == init[i];
        }
      }
    }
  }
}
