/** When a command commits: the exact condition, for a consistent store. */
module StoreCommits {
  import opened Characters
  import opened StoreConsistency
  import opened StoreModel
  import opened StoreTables
  import opened Wrappers

  predicate RootInUse(projects: map<string, Project>, root: string) {
    exists id :: id in projects && projects[id].repoRoot == root
  }

  /** The command suits the project it finds: a creation finds none, anything else finds one
      created no later than now, and what was revoked is not trusted at once. */
  predicate ProjectReady(current: Option<Project>, command: ProjectCommand, at: nat) {
    if command.Create? then current.None?
    else
      current.Some? && at >= current.value.createdAt
      && !(command == SetTrust(Trusted) && current.value.trustState == Revoked)
  }

  predicate EffectReady(current: Option<SideEffect>, command: SideEffectCommand, at: nat) {
    if command.Authorize? then current.None?
    else
      current.Some? && at >= current.value.authorizedAt
      && (if command.Start? then current.value.phase == Authorized
          else
            current.value.phase == Started
            && (command.Finish? && current.value.startedAt.Some? ==> at >= current.value.startedAt.value))
  }

  function ProjectRevision(current: Option<Project>): nat {
    if current.Some? then current.value.revision else 0
  }

  function EffectRevision(current: Option<SideEffect>): nat {
    if current.Some? then current.value.revision else 0
  }

  /** What a caller can check before sending a project command. */
  predicate ProjectCommits(db: Database, env: CommandEnvelope, command: ProjectCommand) {
    var current := CurrentProject(db, env.aggregateId);
    env.expectedRevision == ProjectRevision(current) && ProjectReady(current, command, env.occurredAt)
    && (command.Create? ==> !RootInUse(db.projects, command.project.repoRoot))
  }

  predicate EffectCommits(db: Database, env: CommandEnvelope, command: SideEffectCommand) {
    var current := CurrentEffect(db, env.aggregateId);
    env.expectedRevision == EffectRevision(current) && EffectReady(current, command, env.occurredAt)
  }

  // ------------------------------------------------- the record to write

  /** A built project is valid exactly when the clock has not gone back behind its creation. */
  lemma ProjectBuilds(env: CommandEnvelope, command: ProjectCommand, current: Option<Project>)
    requires ValidateEnvelope(env).Success? && env.command == OnProject(command)
    requires current.Some? ==> GoodProject(env.aggregateId, current.value)
    ensures var built := BuildProject(env.aggregateId, command, current, env.occurredAt);
            built.Success? && ValidProject(built.value.project) <==> ProjectReady(current, command, env.occurredAt)
    ensures var built := BuildProject(env.aggregateId, command, current, env.occurredAt);
            built.Success? && ValidProject(built.value.project) ==>
              && built.value.project.id == env.aggregateId
              && built.value.project.repoRoot
                 == (if current.Some? then current.value.repoRoot else command.project.repoRoot)
              && built.value.project.revision == ProjectRevision(current) + 1
  {
    hide BoundedText, Identifier, Branch, RepoRoot, UuidV7, Weight;
  }

  lemma EffectBuilds(env: CommandEnvelope, command: SideEffectCommand, current: Option<SideEffect>)
    requires ValidateEnvelope(env).Success? && env.command == OnSideEffect(command)
    requires current.Some? ==> GoodEffect(env.aggregateId, current.value)
    ensures var built := BuildEffect(env.aggregateId, command, current, env.occurredAt);
            built.Success? && ValidSideEffect(built.value.effect) <==> EffectReady(current, command, env.occurredAt)
    ensures var built := BuildEffect(env.aggregateId, command, current, env.occurredAt);
            built.Success? && ValidSideEffect(built.value.effect) ==>
              && built.value.effect.actionId == env.aggregateId
              && built.value.effect.revision == EffectRevision(current) + 1
  {
    hide BoundedText, Identifier, RepoRoot, UuidV7, Sha256Text;
  }

  // ----------------------------------------------------- writing the rows

  lemma RecordSucceeds(db: Database, env: CommandEnvelope, payload: Payload, revision: nat, eventId: string)
    requires Executable(db, env, eventId) && AggregateOf(payload) == AggregateTypeOf(env.command)
    requires revision > RevisionIn(StateOf(db), AggregateTypeOf(env.command), env.aggregateId)
    ensures Record(db, env, payload, revision, eventId).Success?
    ensures Record(db, env, payload, revision, eventId).value.projects == db.projects
    ensures Record(db, env, payload, revision, eventId).value.effects == db.effects
  {
    hide Consistent, ValidateEnvelope, EventConflicts;
    NextRevisionIsFree(db, NewEvent(|db.events| + 1, env, payload, revision, eventId));
  }

  lemma ProjectRowApplies(db: Database, p: Project, current: Option<Project>)
    requires Consistent(db) && current == CurrentProject(db, p.id) && ValidProject(p) && p.lastEventSequence > 0
    requires p.revision == ProjectRevision(current) + 1
    requires current.Some? ==> p.repoRoot == current.value.repoRoot
    ensures ApplyProject(db.projects, p, current.None?).Success? <==>
              current.Some? || !RootInUse(db.projects, p.repoRoot)
  {
    hide BoundedText, Identifier, Branch, RepoRoot, UuidV7, Replay;
    assert ProjectRowAllowed(p) by { GoodRowIsAllowed(p); }
  }

  lemma EffectRowApplies(db: Database, e: SideEffect, current: Option<SideEffect>)
    requires current == CurrentEffect(db, e.actionId) && ValidSideEffect(e) && e.lastEventSequence > 0
    requires current.Some? ==> e.authorizedAt == current.value.authorizedAt
    requires e.revision == EffectRevision(current) + 1
    ensures ApplyEffect(db.effects, e, current.None?).Success?
  {
    hide UuidV7, ValidGrant;
  }

  // ------------------------------------------------------- the conditions

  /** Execution stops at the revision check, at building the record, or at the row. */
  lemma ProjectSteps(db: Database, env: CommandEnvelope, command: ProjectCommand, eventId: string)
    requires Executable(db, env, eventId) && env.command == OnProject(command)
    requires var current := CurrentProject(db, env.aggregateId);
             var built := BuildProject(env.aggregateId, command, current, env.occurredAt);
             built.Success? && ValidProject(built.value.project) ==>
               AggregateOf(built.value.payload) == ProjectAggregate
               && built.value.project.revision == ProjectRevision(current) + 1
    ensures var current := CurrentProject(db, env.aggregateId);
            var built := BuildProject(env.aggregateId, command, current, env.occurredAt);
            ExecuteProject(db, env, command, eventId).Success? <==>
              && env.expectedRevision == ProjectRevision(current) && built.Success? && ValidProject(built.value.project)
              && ApplyProject(db.projects, built.value.project.(lastEventSequence := |db.events| + 1),
                              current.None?).Success?
  {
    hide Consistent, ValidateEnvelope, BuildProject, ValidProject, Record, ApplyProject;
    var current := CurrentProject(db, env.aggregateId);
    var built := BuildProject(env.aggregateId, command, current, env.occurredAt);
    if built.Success? && ValidProject(built.value.project) {
      RecordSucceeds(db, env, built.value.payload, built.value.project.revision, eventId);
    }
  }

  lemma ProjectCommitCondition(db: Database, env: CommandEnvelope, command: ProjectCommand, eventId: string)
    requires Executable(db, env, eventId) && env.command == OnProject(command)
    ensures ExecuteProject(db, env, command, eventId).Success? <==> ProjectCommits(db, env, command)
  {
    var current := CurrentProject(db, env.aggregateId);
    assert current.Some? ==> GoodProject(env.aggregateId, current.value) by { ReplayEstablishes(db.events); }
    hide Consistent, ValidateEnvelope, BuildProject, ValidProject, ExecuteProject, ApplyProject, RootInUse,
         ReplayProject, ProjectReady, NewEvent;
    ProjectBuilds(env, command, current);
    var built := BuildProject(env.aggregateId, command, current, env.occurredAt);
    if built.Success? && ValidProject(built.value.project) {
      BuiltProjectReplays(env, command, current, 1, eventId);
      PlacedProjectIsValid(built.value.project, |db.events| + 1);
      ProjectRowApplies(db, built.value.project.(lastEventSequence := |db.events| + 1), current);
    }
    ProjectSteps(db, env, command, eventId);
  }

  lemma PlacedProjectIsValid(p: Project, sequence: nat)
    requires ValidProject(p)
    ensures ValidProject(p.(lastEventSequence := sequence))
  {
    hide BoundedText, Identifier, Branch, RepoRoot, UuidV7, Weight;
  }

  lemma PlacedEffectIsValid(e: SideEffect, sequence: nat)
    requires ValidSideEffect(e)
    ensures ValidSideEffect(e.(lastEventSequence := sequence))
  {
    hide UuidV7, ValidGrant;
  }

  lemma EffectSteps(db: Database, env: CommandEnvelope, command: SideEffectCommand, eventId: string)
    requires Executable(db, env, eventId) && env.command == OnSideEffect(command)
    requires var current := CurrentEffect(db, env.aggregateId);
             var built := BuildEffect(env.aggregateId, command, current, env.occurredAt);
             built.Success? && ValidSideEffect(built.value.effect) ==>
               AggregateOf(built.value.payload) == SideEffectAggregate
               && built.value.effect.revision == EffectRevision(current) + 1
    ensures var current := CurrentEffect(db, env.aggregateId);
            var built := BuildEffect(env.aggregateId, command, current, env.occurredAt);
            ExecuteEffect(db, env, command, eventId).Success? <==>
              && env.expectedRevision == EffectRevision(current) && built.Success?
              && ValidSideEffect(built.value.effect)
              && ApplyEffect(db.effects, built.value.effect.(lastEventSequence := |db.events| + 1),
                             current.None?).Success?
  {
    hide Consistent, ValidateEnvelope, BuildEffect, ValidSideEffect, Record, ApplyEffect;
    var current := CurrentEffect(db, env.aggregateId);
    var built := BuildEffect(env.aggregateId, command, current, env.occurredAt);
    if built.Success? && ValidSideEffect(built.value.effect) {
      RecordSucceeds(db, env, built.value.payload, built.value.effect.revision, eventId);
    }
  }

  lemma EffectCommitCondition(db: Database, env: CommandEnvelope, command: SideEffectCommand, eventId: string)
    requires Executable(db, env, eventId) && env.command == OnSideEffect(command)
    ensures ExecuteEffect(db, env, command, eventId).Success? <==> EffectCommits(db, env, command)
  {
    var current := CurrentEffect(db, env.aggregateId);
    assert current.Some? ==> GoodEffect(env.aggregateId, current.value) by { ReplayEstablishes(db.events); }
    EnvelopeCommandValid(env);
    hide Consistent, ValidateEnvelope, BuildEffect, ValidSideEffect, ExecuteEffect, ApplyEffect, ValidCommand,
         ReplayEffect, EffectReady, NewEvent;
    EffectBuilds(env, command, current);
    var built := BuildEffect(env.aggregateId, command, current, env.occurredAt);
    if built.Success? && ValidSideEffect(built.value.effect) {
      BuiltEffectReplays(env, command, current, 1, eventId);
      PlacedEffectIsValid(built.value.effect, |db.events| + 1);
      EffectRowApplies(db, built.value.effect.(lastEventSequence := |db.events| + 1), current);
    }
    EffectSteps(db, env, command, eventId);
  }

  /** A client's command that was not committed before commits if and only if it is valid, is
      not the startup-only one, and finds its aggregate as it expects. */
  lemma CommitCondition(db: Database, env: CommandEnvelope, eventId: string)
    requires Consistent(db) && FreshEvent(db, eventId) && env.commandId !in db.receipts
    ensures Execute(db, env, eventId).Success? <==>
            ValidateEnvelope(env).Success? && env.command != OnSideEffect(MarkUnknown)
            && match env.command
               case OnProject(command) => ProjectCommits(db, env, command)
               case OnSideEffect(command) => EffectCommits(db, env, command)
  {
    hide Consistent, ValidateEnvelope, ExecuteProject, ExecuteEffect, ProjectCommits, EffectCommits;
    if ValidateEnvelope(env).Success? {
      match env.command {
        case OnProject(command) => ProjectCommitCondition(db, env, command, eventId);
        case OnSideEffect(command) => EffectCommitCondition(db, env, command, eventId);
      }
    }
  }
}
