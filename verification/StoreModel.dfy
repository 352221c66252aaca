/** Records, commands and events of the durable store, and the checks on single values. */
module StoreModel {
  import opened Characters
  import opened Wrappers

  const COMMAND_SCHEMA_VERSION: nat := 1
  const MAX_SAFE_JSON_INTEGER: nat := 9_007_199_254_740_991

  // ------------------------------------------------------------- records

  datatype ActorKind = User | System

  datatype Actor = Actor(kind: ActorKind, actorId: Option<string>)

  datatype TrustState = Untrusted | Trusted | Revoked

  datatype Project = Project(
    id: string, displayName: string, repoRoot: string, repoIdentity: string, defaultBranch: string,
    trustState: TrustState, weight: real, providerPolicy: string, dataClassification: string,
    revision: nat, createdAt: nat, updatedAt: nat, lastEventSequence: nat)

  datatype CreateProject = CreateProject(
    displayName: string, repoRoot: string, repoIdentity: string, defaultBranch: string,
    providerPolicy: string, dataClassification: string, weight: real)

  datatype Phase = Authorized | Started | Finished | Unknown

  datatype ResultClass = Succeeded | Failed

  datatype AuditContext = AuditContext(
    approved: bool, providerId: Option<string>, accountAlias: Option<string>, affectedPaths: seq<string>,
    destination: Option<string>)

  /** What an authorization fixes about a side effect. */
  datatype Grant = Grant(
    projectId: Option<string>, runId: string, capability: string, actionDigest: string, approvalId: string,
    bindingDigest: string)

  datatype SideEffect = SideEffect(
    actionId: string, grant: Grant, phase: Phase, revision: nat, resultClass: Option<ResultClass>,
    authorizedAt: nat, startedAt: Option<nat>, finishedAt: Option<nat>, updatedAt: nat, lastEventSequence: nat)

  // ------------------------------------------------------------ commands

  datatype ProjectCommand =
    | Create(project: CreateProject)
    | Rename(displayName: string)
    | SetTrust(trustState: TrustState)
    | SetSchedulingWeight(weight: real)
    | SetPolicy(providerPolicy: string, dataClassification: string)

  datatype SideEffectCommand =
    | Authorize(grant: Grant, audit: AuditContext)
    | Start
    | Finish(resultClass: ResultClass)
    | MarkUnknown

  datatype StoreCommand = OnProject(project: ProjectCommand) | OnSideEffect(effect: SideEffectCommand)

  datatype CommandEnvelope = CommandEnvelope(
    schemaVersion: nat, commandId: string, aggregateId: string, expectedRevision: nat, actor: Actor,
    correlationId: string, causationEventId: Option<string>, occurredAt: nat, command: StoreCommand)

  /** SHA-256 of the serialized envelope, taken as collision-free; the import of version-1 rows
      stores 32 zero bytes instead. */
  datatype RequestDigest = DigestOf(envelope: CommandEnvelope) | ZeroDigest

  datatype CommandReceipt = CommandReceipt(
    commandId: string, aggregateId: string, aggregateRevision: nat,
    firstGlobalSequence: nat, lastGlobalSequence: nat, replayed: bool)

  // -------------------------------------------------------------- events

  datatype AggregateType = ProjectAggregate | SideEffectAggregate

  /** Kind and payload of an event; the JSON codec is an exact round trip. */
  datatype Payload =
    | ProjectCreated(project: CreateProject)
    | ProjectImported(row: Project)
    | ProjectRenamed(displayName: string)
    | ProjectTrustChanged(trustState: TrustState)
    | ProjectWeightChanged(weight: real)
    | ProjectPolicyChanged(providerPolicy: string, dataClassification: string)
    | EffectAuthorized(grant: Grant, audit: AuditContext)
    | EffectStarted
    | EffectFinished(resultClass: ResultClass)
    | EffectOutcomeUnknown

  function AggregateOf(payload: Payload): AggregateType {
    match payload
    case EffectAuthorized(_, _) => SideEffectAggregate
    case EffectStarted => SideEffectAggregate
    case EffectFinished(_) => SideEffectAggregate
    case EffectOutcomeUnknown => SideEffectAggregate
    case _ => ProjectAggregate
  }

  /** Identity of the request behind an event, as repeated in its receipt. */
  datatype Request = Request(
    commandId: string, schemaVersion: nat, kind: string, aggregateType: AggregateType, aggregateId: string,
    expectedRevision: nat, digest: RequestDigest, actor: Actor, correlationId: string, at: nat)

  datatype Event = Event(sequence: nat, eventId: string, revision: nat, payload: Payload, request: Request,
      causationEventId: Option<string>)

  datatype ReceiptRow = ReceiptRow(request: Request, revision: nat, firstSequence: nat, lastSequence: nat)

  datatype AuditRow = AuditRow(action: string, commandId: string, correlationId: string, at: nat)

  datatype StoreError =
    | UnsupportedCommandSchema(version: nat)
    | InvalidInput
    | IdempotencyConflict(commandId: string)
    | RevisionConflict(aggregateId: string, expected: nat, actual: nat)
    | AggregateAlreadyExists(aggregateId: string)
    | AggregateNotFound(aggregateId: string)
    | InvalidTransition
    | IntegrityFailure
    | UnsupportedEvent
    | ConstraintViolation

  // ------------------------------------------------------- single values

  /** White space in the sense of Rust's trim. */
  predicate WhiteSpace(c: char) {
    '\t' <= c <= '\r' || c == ' ' || c == '\U{85}' || c == '\U{A0}' || c == '\U{1680}' || '\U{2000}' <= c <= '\U{200A}'
    || c == '\U{2028}' || c == '\U{2029}' || c == '\U{202F}' || c == '\U{205F}' || c == '\U{3000}'
  }

  predicate BoundedText(v: string, max: nat) {
    && (exists i :: 0 <= i < |v| && !WhiteSpace(v[i]))
    && |v| <= max
    && (forall i :: 0 <= i < |v| ==> !AsciiControl(v[i]))
  }

  predicate Identifier(v: string) {
    1 <= |v| <= 128 && forall i :: 0 <= i < |v| ==> v[i] < '\U{80}' && !AsciiControl(v[i])
  }

  predicate Branch(v: string) {
    && BoundedText(v, 255)
    && v[0] != '-' && v[|v|-1] != '.'
    && (forall i :: 0 <= i < |v| - 1 ==> !(v[i] == '.' && v[i+1] == '.'))
  }

  /** The component behind position i is "..". */
  predicate ParentAt(v: string, i: nat) {
    i + 2 < |v| && v[i] == '/' && v[i+1] == '.' && v[i+2] == '.' && (i + 3 < |v| ==> v[i+3] == '/')
  }

  /** Absolute, and no component is "..". */
  predicate RepoRoot(v: string) {
    BoundedText(v, 4096) && v[0] == '/' && forall i :: 0 <= i < |v| ==> !ParentAt(v, i)
  }

  predicate Weight(w: real) {
    0.1 <= w <= 100.0
  }

  /** The canonical hyphenated lower-case form with version digit 7. */
  predicate UuidV7(v: string) {
    && |v| == 36 && v[14] == '7'
    && (forall i :: 0 <= i < 36 ==> if i == 8 || i == 13 || i == 18 || i == 23 then v[i] == '-' else LowerHex(v[i]))
  }

  // ------------------------------------------------------------- records

  predicate ValidActor(a: Actor) {
    (a.kind == User ==> a.actorId.Some?) && (a.actorId.Some? ==> Identifier(a.actorId.value))
  }

  predicate ValidProject(p: Project) {
    && UuidV7(p.id) && BoundedText(p.displayName, 200) && RepoRoot(p.repoRoot) && BoundedText(p.repoIdentity, 512)
    && Branch(p.defaultBranch) && Identifier(p.providerPolicy) && Identifier(p.dataClassification) && Weight(p.weight)
    && p.revision > 0 && p.updatedAt >= p.createdAt
  }

  predicate ValidGrant(g: Grant) {
    && (g.projectId.Some? ==> UuidV7(g.projectId.value)) && UuidV7(g.runId) && Identifier(g.capability)
    && Sha256Text(g.actionDigest) && UuidV7(g.approvalId) && Sha256Text(g.bindingDigest)
  }

  predicate ValidAuditContext(a: AuditContext) {
    && (a.providerId.Some? ==> Identifier(a.providerId.value))
    && (a.accountAlias.Some? ==> Identifier(a.accountAlias.value))
    && |a.affectedPaths| <= 64 && (forall i :: 0 <= i < |a.affectedPaths| ==> RepoRoot(a.affectedPaths[i]))
    && (a.destination.Some? ==> BoundedText(a.destination.value, 2048))
  }

  predicate TimestampsMatch(e: SideEffect) {
    match e.phase
    case Authorized => e.startedAt == None && e.finishedAt == None && e.resultClass == None
    case Finished =>
      && e.startedAt.Some? && e.startedAt.value >= e.authorizedAt
      && e.finishedAt.Some? && e.finishedAt.value >= e.startedAt.value && e.resultClass.Some?
    case _ => e.startedAt.Some? && e.startedAt.value >= e.authorizedAt && e.finishedAt == None && e.resultClass == None
  }

  predicate ValidSideEffect(e: SideEffect) {
    UuidV7(e.actionId) && ValidGrant(e.grant) && e.revision > 0 && e.updatedAt >= e.authorizedAt && TimestampsMatch(e)
  }

  predicate ValidCreate(c: CreateProject) {
    && BoundedText(c.displayName, 200) && RepoRoot(c.repoRoot) && BoundedText(c.repoIdentity, 512)
    && Branch(c.defaultBranch) && Identifier(c.providerPolicy) && Identifier(c.dataClassification) && Weight(c.weight)
  }

  predicate ValidCommand(c: StoreCommand) {
    match c
    case OnProject(Create(project)) => ValidCreate(project)
    case OnProject(Rename(name)) => BoundedText(name, 200)
    case OnProject(SetTrust(_)) => true
    case OnProject(SetSchedulingWeight(w)) => Weight(w)
    case OnProject(SetPolicy(policy, data)) => Identifier(policy) && Identifier(data)
    case OnSideEffect(Authorize(grant, audit)) => ValidGrant(grant) && ValidAuditContext(audit)
    case OnSideEffect(_) => true
  }

  function ValidateEnvelope(e: CommandEnvelope): Result<(), StoreError> {
    if e.schemaVersion != COMMAND_SCHEMA_VERSION then Failure(UnsupportedCommandSchema(e.schemaVersion))
    else if !(UuidV7(e.commandId) && UuidV7(e.aggregateId) && UuidV7(e.correlationId)
              && (e.causationEventId.Some? ==> UuidV7(e.causationEventId.value))
              && e.expectedRevision <= MAX_SAFE_JSON_INTEGER && e.occurredAt <= MAX_SAFE_JSON_INTEGER
              && ValidActor(e.actor) && ValidCommand(e.command)) then Failure(InvalidInput)
    else Success(())
  }

  predicate ValidTrustTransition(from: TrustState, to: TrustState) {
    from == to || to == Untrusted || from == Untrusted || (from == Trusted && to == Revoked)
  }

  function AggregateTypeOf(c: StoreCommand): AggregateType {
    if c.OnProject? then ProjectAggregate else SideEffectAggregate
  }

  function CommandKindOf(c: StoreCommand): string {
    match c
    case OnProject(Create(_)) => "project.create"
    case OnProject(Rename(_)) => "project.rename"
    case OnProject(SetTrust(_)) => "project.set_trust"
    case OnProject(SetSchedulingWeight(_)) => "project.set_scheduling_weight"
    case OnProject(SetPolicy(_, _)) => "project.set_policy"
    case OnSideEffect(Authorize(_, _)) => "side_effect.authorize"
    case OnSideEffect(Start) => "side_effect.start"
    case OnSideEffect(Finish(_)) => "side_effect.finish"
    case OnSideEffect(MarkUnknown) => "side_effect.mark_unknown"
  }
}
