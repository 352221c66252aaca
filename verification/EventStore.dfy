/** The store as an object: tables written row by row inside a transaction, and rolled back
    when a later write of the same transaction fails. */
module EventStore {
  import opened StoreModel
  import opened StoreTables
  import opened Wrappers

  class Store {
    var events: seq<Event>
    var receipts: map<string, ReceiptRow>
    var projects: map<string, Project>
    var effects: map<string, SideEffect>
    var projectCursor: nat
    var effectCursor: nat
    var audit: seq<AuditRow>

    ghost function Tables(): Database
      reads this
    {
      Database(events, receipts, projects, effects, projectCursor, effectCursor, audit)
    }

    /** A store over tables already on disk. */
    constructor (db: Database)
      ensures Tables() == db
    {
      events, receipts, projects, effects := db.events, db.receipts, db.projects, db.effects;
      projectCursor, effectCursor, audit := db.projectCursor, db.effectCursor, db.audit;
    }

    // ------------------------------------------------------ transactions

    method Snapshot() returns (saved: Database)
      ensures saved == Tables()
    {
      saved := Database(events, receipts, projects, effects, projectCursor, effectCursor, audit);
    }

    method Rollback(saved: Database)
      modifies this
      ensures Tables() == saved
    {
      events, receipts, projects, effects := saved.events, saved.receipts, saved.projects, saved.effects;
      projectCursor, effectCursor, audit := saved.projectCursor, saved.effectCursor, saved.audit;
    }

    /** Appends the event and then its receipt. */
    method InsertEventAndReceipt(env: CommandEnvelope, payload: Payload, revision: nat, eventId: string)
      returns (r: Result<nat, StoreError>)
      modifies this`events, this`receipts
      ensures match Record(old(Tables()), env, payload, revision, eventId)
              case Failure(error) => r == Failure(error)
              case Success(db) => r == Success(|old(events)| + 1) && Tables() == db
    {
      var sequence := |events| + 1;
      var e := NewEvent(sequence, env, payload, revision, eventId);
      if EventConflicts(events, e) {
        return Failure(ConstraintViolation);
      }
      events := events + [e];
      if env.commandId in receipts {
        return Failure(ConstraintViolation);
      }
      receipts := receipts[env.commandId := ReceiptRow(e.request, revision, sequence, sequence)];
      return Success(sequence);
    }

    method InsertAudit(env: CommandEnvelope)
      modifies this`audit
      ensures Tables() == Audited(old(Tables()), env)
    {
      audit := audit + [AuditRow(CommandKindOf(env.command), env.commandId, env.correlationId, env.occurredAt)];
    }

    method ExecuteOnProject(env: CommandEnvelope, command: ProjectCommand, eventId: string)
      returns (r: Result<CommandReceipt, StoreError>)
      modifies this
      ensures match ExecuteProject(old(Tables()), env, command, eventId)
              case Failure(error) => r == Failure(error)
              case Success(c) => r == Success(c.receipt) && Tables() == c.db
    {
      hide BuildProject, ValidProject, ApplyProject, EventConflicts;
      var current := if env.aggregateId in projects then Some(projects[env.aggregateId]) else None;
      var actual := if current.Some? then current.value.revision else 0;
      if env.expectedRevision != actual {
        return Failure(RevisionConflict(env.aggregateId, env.expectedRevision, actual));
      }
      var mutation := BuildProject(env.aggregateId, command, current, env.occurredAt);
      if mutation.Failure? {
        return Failure(mutation.error);
      }
      var project := mutation.value.project;
      if !ValidProject(project) {
        return Failure(InvalidInput);
      }
      var inserted := InsertEventAndReceipt(env, mutation.value.payload, project.revision, eventId);
      if inserted.Failure? {
        return Failure(inserted.error);
      }
      var written := ApplyProject(projects, project.(lastEventSequence := inserted.value), current.None?);
      if written.Failure? {
        return Failure(written.error);
      }
      projects := written.value;
      projectCursor := inserted.value;
      InsertAudit(env);
      return Success(ReceiptFor(env, project.revision, inserted.value));
    }

    method ExecuteOnEffect(env: CommandEnvelope, command: SideEffectCommand, eventId: string)
      returns (r: Result<CommandReceipt, StoreError>)
      modifies this
      ensures match ExecuteEffect(old(Tables()), env, command, eventId)
              case Failure(error) => r == Failure(error)
              case Success(c) => r == Success(c.receipt) && Tables() == c.db
    {
      hide BuildEffect, ValidSideEffect, ApplyEffect, EventConflicts;
      var current := if env.aggregateId in effects then Some(effects[env.aggregateId]) else None;
      var actual := if current.Some? then current.value.revision else 0;
      if env.expectedRevision != actual {
        return Failure(RevisionConflict(env.aggregateId, env.expectedRevision, actual));
      }
      var mutation := BuildEffect(env.aggregateId, command, current, env.occurredAt);
      if mutation.Failure? {
        return Failure(mutation.error);
      }
      var effect := mutation.value.effect;
      if !ValidSideEffect(effect) {
        return Failure(InvalidInput);
      }
      var inserted := InsertEventAndReceipt(env, mutation.value.payload, effect.revision, eventId);
      if inserted.Failure? {
        return Failure(inserted.error);
      }
      var written := ApplyEffect(effects, effect.(lastEventSequence := inserted.value), current.None?);
      if written.Failure? {
        return Failure(written.error);
      }
      effects := written.value;
      effectCursor := inserted.value;
      InsertAudit(env);
      return Success(ReceiptFor(env, effect.revision, inserted.value));
    }

    /** A client's command. Whatever fails, and however late, leaves the tables as they were. */
    method Execute(env: CommandEnvelope, eventId: string) returns (r: Result<CommandReceipt, StoreError>)
      modifies this
      ensures match StoreTables.Execute(old(Tables()), env, eventId)
              case Failure(error) => r == Failure(error) && Tables() == old(Tables())
              case Success(c) => r == Success(c.receipt) && Tables() == c.db
    {
      var valid := ValidateEnvelope(env);
      if valid.Failure? {
        return Failure(valid.error);
      }
      if env.command == OnSideEffect(MarkUnknown) {
        return Failure(InvalidInput);
      }
      var saved := Snapshot();
      if env.commandId in receipts {
        var row := receipts[env.commandId];
        if row.request.digest != DigestOf(env) {
          return Failure(IdempotencyConflict(env.commandId));
        }
        return Success(CommandReceipt(env.commandId, row.request.aggregateId, row.revision, row.firstSequence,
                                      row.lastSequence, true));
      }
      match env.command {
        case OnProject(command) => r := ExecuteOnProject(env, command, eventId);
        case OnSideEffect(command) => r := ExecuteOnEffect(env, command, eventId);
      }
      if r.Failure? {
        Rollback(saved);
      }
    }

    // ------------------------------------------------------ verification

    /** Folds the log into the two projections and their cursors. */
    method ReplayDerivedState() returns (r: Result<Replayed, StoreError>)
      ensures r == Replay(events)
    {
      var state := Replayed(map[], map[], 0, 0);
      for i := 0 to |events|
        invariant Replay(events[..i]) == Success(state)
      {
        assert events[..i+1][..i] == events[..i];
        var next := ReplayStep(state, events[i]);
        if next.Failure? {
          ReplayFails(events, i + 1);
          return Failure(next.error);
        }
        state := next.value;
      }
      assert events[..|events|] == events;
      return Success(state);
    }

    method ReinsertProjects(rows: seq<Project>) returns (r: Result<(), StoreError>)
      modifies this`projects
      ensures match RebuildProjects(rows)
              case Failure(error) => r == Failure(error)
              case Success(table) => r == Success(()) && projects == table
    {
      hide ApplyProject;
      projects := map[];
      for i := 0 to |rows|
        invariant RebuildProjects(rows[..i]) == Success(projects)
      {
        assert rows[..i+1][..i] == rows[..i];
        var written := ApplyProject(projects, rows[i], true);
        if written.Failure? {
          RebuildProjectsFails(rows, i + 1);
          return Failure(written.error);
        }
        projects := written.value;
      }
      assert rows[..|rows|] == rows;
      return Success(());
    }

    method ReinsertEffects(rows: seq<SideEffect>) returns (r: Result<(), StoreError>)
      modifies this`effects
      ensures match RebuildEffects(rows)
              case Failure(error) => r == Failure(error)
              case Success(table) => r == Success(()) && effects == table
    {
      hide ApplyEffect;
      effects := map[];
      for i := 0 to |rows|
        invariant RebuildEffects(rows[..i]) == Success(effects)
      {
        assert rows[..i+1][..i] == rows[..i];
        var written := ApplyEffect(effects, rows[i], true);
        if written.Failure? {
          RebuildEffectsFails(rows, i + 1);
          return Failure(written.error);
        }
        effects := written.value;
      }
      assert rows[..|rows|] == rows;
      return Success(());
    }

    /** Rewrites the projections that differ from the replayed state, in one transaction. */
    method RepairProjections(expected: Replayed, stamp: RepairStamp) returns (r: Result<(), StoreError>)
      modifies this
      ensures match Repair(old(Tables()), expected, stamp)
              case Failure(error) => r == Failure(error) && Tables() == old(Tables())
              case Success(db) => r == Success(()) && Tables() == db
    {
      hide RebuildProjects, RebuildEffects, RowsOf;
      var saved := Snapshot();
      var effectsDiffer := EffectsDiffer(saved, expected);
      if ProjectsDiffer(saved, expected) {
        r := ReinsertProjects(RowsOf(expected.projects));
        if r.Failure? {
          Rollback(saved);
          return;
        }
        projectCursor := expected.projectCursor;
      }
      if effectsDiffer {
        r := ReinsertEffects(RowsOf(expected.effects));
        if r.Failure? {
          Rollback(saved);
          return;
        }
        effectCursor := expected.effectCursor;
      }
      audit := audit + [AuditRow("store.projection_rebuilt", stamp.commandId, stamp.correlationId, stamp.at)];
      r := Success(());
    }

    method VerifyTables(repair: bool, stamp: RepairStamp) returns (r: Result<Report, StoreError>)
      modifies this
      ensures match Verify(old(Tables()), repair, stamp)
              case Failure(error) => r == Failure(error) && Tables() == old(Tables())
              case Success(v) => r == Success(v.report) && Tables() == v.db
    {
      var now := Snapshot();
      if !LedgerIntact(now) {
        return Failure(IntegrityFailure);
      }
      var replayed := ReplayDerivedState();
      if replayed.Failure? {
        return Failure(replayed.error);
      }
      var expected := replayed.value;
      var mismatch := ProjectsDiffer(now, expected) || EffectsDiffer(now, expected);
      if mismatch && !repair {
        return Failure(IntegrityFailure);
      }
      if mismatch {
        var repaired := RepairProjections(expected, stamp);
        if repaired.Failure? {
          return Failure(repaired.error);
        }
      }
      return Success(Report(|events|, |expected.projects|, |expected.effects|, mismatch));
    }

    // ---------------------------------------------------------- start-up

    /** Marks every side effect found started as unknown, all or none. */
    method RecoverStarted(supply: nat -> FreshIds, now: nat) returns (r: Result<nat, StoreError>)
      modifies this
      ensures match Recover(old(Tables()), supply, now)
              case Failure(error) => r == Failure(error) && Tables() == old(Tables())
              case Success(db) => r == Success(|StartedEffects(old(Tables()))|) && Tables() == db
    {
      hide ExecuteEffect, ValidateEnvelope, RowsOf;
      var saved := Snapshot();
      var found := StartedEffects(saved);
      for i := 0 to |found|
        invariant RecoverAll(saved, found[..i], supply, now) == Success(Tables())
      {
        assert found[..i+1][..i] == found[..i];
        var ids := supply(i);
        var env := RecoveryEnvelope(found[i], ids, now);
        var valid := ValidateEnvelope(env);
        if valid.Failure? {
          RecoverAllFails(saved, found, supply, now, i + 1);
          Rollback(saved);
          return Failure(valid.error);
        }
        var done := ExecuteOnEffect(env, MarkUnknown, ids.eventId);
        if done.Failure? {
          RecoverAllFails(saved, found, supply, now, i + 1);
          Rollback(saved);
          return Failure(done.error);
        }
      }
      assert found[..|found|] == found;
      return Success(|found|);
    }

    method Start(stamp: RepairStamp, supply: nat -> FreshIds, now: nat) returns (r: Result<OpenReport, StoreError>)
      modifies this
      ensures var o := Open(old(Tables()), stamp, supply, now); r == o.outcome && Tables() == o.db
    {
      var verification := VerifyTables(true, stamp);
      if verification.Failure? {
        return Failure(verification.error);
      }
      var recovered := RecoverStarted(supply, now);
      if recovered.Failure? {
        return Failure(recovered.error);
      }
      return Success(OpenReport(verification.value, recovered.value));
    }

    // -------------------------------------------------------- migration

    /** The statements that turn version-1 project rows into baseline events: events from the
        rows, receipts and audit rows from the events, then the sequence numbers in the project
        rows and the cursor. */
    method ImportProjects(rows: seq<Project>)
      requires DistinctProjectIds(rows) && Tables() == EMPTY.(projects := projects)
      requires projects == TableOf(rows)
      modifies this
      ensures Tables() == Import(rows)
    {
      InsertBaselineEvents(rows);
      ImportContents(rows);
      InsertBaselineReceipts(rows);
      InsertBaselineAudit(rows);
      UpdateSequences(rows);
      projectCursor := |events|;
    }

    method InsertBaselineEvents(rows: seq<Project>)
      requires events == []
      modifies this`events
      ensures events == Import(rows).events
    {
      for i := 0 to |rows|
        invariant events == Import(rows[..i]).events && |events| == i
      {
        assert rows[..i+1][..i] == rows[..i];
        events := events + [ImportEvent(rows[i], |events| + 1)];
      }
      assert rows[..|rows|] == rows;
    }

    method InsertBaselineReceipts(rows: seq<Project>)
      requires receipts == map[] && |events| == |rows|
      requires forall i :: 0 <= i < |rows| ==> events[i] == ImportEvent(rows[i], i + 1)
      modifies this`receipts
      ensures receipts == Import(rows).receipts
    {
      for i := 0 to |events|
        invariant receipts == Import(rows[..i]).receipts
      {
        assert rows[..i+1][..i] == rows[..i];
        var e := events[i];
        receipts := receipts[e.request.commandId := ReceiptRow(e.request, e.revision, e.sequence, e.sequence)];
      }
      assert rows[..|rows|] == rows;
    }

    method InsertBaselineAudit(rows: seq<Project>)
      requires audit == [] && |events| == |rows|
      requires forall i :: 0 <= i < |rows| ==> events[i] == ImportEvent(rows[i], i + 1)
      modifies this`audit
      ensures audit == Import(rows).audit
    {
      for i := 0 to |events|
        invariant audit == Import(rows[..i]).audit
      {
        assert rows[..i+1][..i] == rows[..i];
        var e := events[i];
        audit := audit + [AuditRow("project.import", e.request.commandId, e.request.correlationId, e.request.at)];
      }
      assert rows[..|rows|] == rows;
    }

    method UpdateSequences(rows: seq<Project>)
      requires DistinctProjectIds(rows) && projects == TableOf(rows) && |events| == |rows|
      requires forall i :: 0 <= i < |rows| ==> events[i] == ImportEvent(rows[i], i + 1)
      modifies this`projects
      ensures projects == Import(rows).projects
    {
      hide PartlyNumbered, Import, TableOf;
      NoneNumbered(rows);
      for i := 0 to |events|
        invariant PartlyNumbered(rows, i, projects)
      {
        var e := events[i];
        OneMoreNumbered(rows, i, projects);
        projects := projects[e.request.aggregateId :=
                             projects[e.request.aggregateId].(lastEventSequence := e.sequence)];
      }
      AllNumbered(rows, projects);
    }
  }

  ghost predicate DistinctProjectIds(rows: seq<Project>) {
    forall i, j :: 0 <= i < j < |rows| ==> rows[i].id != rows[j].id
  }

  /** The project table that holds these rows. */
  ghost function TableOf(rows: seq<Project>): map<string, Project> {
    if rows == [] then map[] else TableOf(rows[..|rows|-1])[rows[|rows|-1].id := rows[|rows|-1]]
  }

  lemma {:induction false} TableOfRows(rows: seq<Project>)
    requires DistinctProjectIds(rows)
    ensures forall i :: 0 <= i < |rows| ==> rows[i].id in TableOf(rows) && TableOf(rows)[rows[i].id] == rows[i]
    ensures forall id :: id in TableOf(rows) ==> exists i :: 0 <= i < |rows| && rows[i].id == id
  {
    if rows == [] {
    } else {
      var init := rows[..|rows|-1];
      TableOfRows(init);
      forall i | 0 <= i < |rows| ensures rows[i].id in TableOf(rows) && TableOf(rows)[rows[i].id] == rows[i] {
        if i < |init| {
          assert init[i] == rows[i];
        }
      }
      forall id | id in TableOf(rows) ensures exists i :: 0 <= i < |rows| && rows[i].id == id {
        if id in TableOf(init) {
          var i :| 0 <= i < |init| && init[i].id == id;
          assert rows[i] == init[i];
        } else {
          assert rows[|init|].id == id;
        }
      }
    }
  }

  /** The table after the first rows have been given the numbers of their events. */
  ghost predicate PartlyNumbered(rows: seq<Project>, count: nat, table: map<string, Project>) {
    && (forall i :: 0 <= i < |rows| ==>
          && rows[i].id in table
          && table[rows[i].id] == if i < count then rows[i].(lastEventSequence := i + 1) else rows[i])
    && (forall id :: id in table ==> exists i :: 0 <= i < |rows| && rows[i].id == id)
  }

  lemma NoneNumbered(rows: seq<Project>)
    requires DistinctProjectIds(rows)
    ensures PartlyNumbered(rows, 0, TableOf(rows))
  {
    hide TableOf;
    TableOfRows(rows);
  }

  lemma OneMoreNumbered(rows: seq<Project>, i: nat, table: map<string, Project>)
    requires DistinctProjectIds(rows) && i < |rows| && PartlyNumbered(rows, i, table)
    ensures rows[i].id in table
    ensures PartlyNumbered(rows, i + 1, table[rows[i].id := table[rows[i].id].(lastEventSequence := i + 1)])
  {
  }

  lemma {:induction false} ImportedRow(rows: seq<Project>, i: nat)
    requires DistinctProjectIds(rows) && i < |rows|
    ensures rows[i].id in Import(rows).projects
            && Import(rows).projects[rows[i].id] == rows[i].(lastEventSequence := i + 1)
  {
    if i == |rows| - 1 {
    } else {
      var init := rows[..|rows|-1];
      assert init[i] == rows[i];
      ImportedRow(init, i);
    }
  }

  lemma {:induction false} ImportedIsRow(rows: seq<Project>, id: string) returns (i: nat)
    requires id in Import(rows).projects
    ensures i < |rows| && rows[i].id == id
  {
    var last := |rows| - 1;
    i := last;
    if rows[last].id != id {
      i := ImportedIsRow(rows[..last], id);
    }
  }

  lemma AllNumbered(rows: seq<Project>, table: map<string, Project>)
    requires DistinctProjectIds(rows) && PartlyNumbered(rows, |rows|, table)
    ensures table == Import(rows).projects
  {
    hide Import, DistinctProjectIds;
    var imported := Import(rows).projects;
    forall id | id in table ensures id in imported && table[id] == imported[id] {
      var i :| 0 <= i < |rows| && rows[i].id == id;
      ImportedRow(rows, i);
    }
    forall id | id in imported ensures id in table {
      var i := ImportedIsRow(rows, id);
    }
    assert table == imported;
  }

  // ------------------------------------ a failed prefix fails the whole

  lemma {:induction false} ReplayFails(events: seq<Event>, i: nat)
    requires i <= |events| && Replay(events[..i]).Failure?
    ensures Replay(events) == Failure(Replay(events[..i]).error)
    decreases |events| - i
  {
    if i == |events| {
      assert events[..i] == events;
    } else {
      assert events[..i+1][..i] == events[..i];
      ReplayFails(events, i + 1);
    }
  }

  lemma {:induction false} RebuildProjectsFails(rows: seq<Project>, i: nat)
    requires i <= |rows| && RebuildProjects(rows[..i]).Failure?
    ensures RebuildProjects(rows) == RebuildProjects(rows[..i])
    decreases |rows| - i
  {
    if i == |rows| {
      assert rows[..i] == rows;
    } else {
      assert rows[..i+1][..i] == rows[..i];
      RebuildProjectsFails(rows, i + 1);
    }
  }

  lemma {:induction false} RebuildEffectsFails(rows: seq<SideEffect>, i: nat)
    requires i <= |rows| && RebuildEffects(rows[..i]).Failure?
    ensures RebuildEffects(rows) == RebuildEffects(rows[..i])
    decreases |rows| - i
  {
    if i == |rows| {
      assert rows[..i] == rows;
    } else {
      assert rows[..i+1][..i] == rows[..i];
      RebuildEffectsFails(rows, i + 1);
    }
  }

  lemma {:induction false} RecoverAllFails(db: Database, found: seq<SideEffect>, supply: nat -> FreshIds, now: nat,
      i: nat)
    requires i <= |found| && RecoverAll(db, found[..i], supply, now).Failure?
    ensures RecoverAll(db, found, supply, now) == RecoverAll(db, found[..i], supply, now)
    decreases |found| - i
  {
    hide RecoverOne;
    if i == |found| {
      assert found[..i] == found;
    } else {
      assert found[..i+1][..i] == found[..i];
      RecoverAllFails(db, found, supply, now, i + 1);
    }
  }
}
