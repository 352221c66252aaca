/** Verification and repair of the projections. */
module StoreRepair {
  import opened Orders
  import opened StoreConsistency
  import opened StoreModel
  import opened StoreTables
  import opened Wrappers

  // ------------------------------------------------------- verification

  lemma {:induction false} EventsOfNone(events: seq<Event>, id: string)
    requires forall i :: 0 <= i < |events| ==> events[i].request.commandId != id
    ensures EventsOf(events, id) == []
  {
    if events == [] {
    } else {
      EventsOfNone(events[..|events|-1], id);
    }
  }

  /** Each command owns exactly one event. */
  lemma {:induction false} EventsOfOne(events: seq<Event>, i: nat)
    requires DistinctIds(events) && i < |events|
    ensures EventsOf(events, events[i].request.commandId) == [events[i]]
  {
    var last := |events| - 1;
    var init := events[..last];
    if i == last {
      EventsOfNone(init, events[i].request.commandId);
    } else {
      assert init[i] == events[i];
      EventsOfOne(init, i);
    }
  }

  lemma ConsistentLedgerIsIntact(db: Database)
    requires Consistent(db)
    ensures LedgerIntact(db)
  {
    forall id | id in db.receipts ensures ReceiptMatches(db.events, id, db.receipts[id]) {
      var i :| 0 <= i < |db.events| && db.events[i].request.commandId == id;
      EventsOfOne(db.events, i);
    }
  }

  /** A consistent database verifies, with or without repair, and nothing is rebuilt. */
  lemma ConsistentVerifies(db: Database, repair: bool, stamp: RepairStamp)
    requires Consistent(db)
    ensures Verify(db, repair, stamp)
            == Success(Verified(db, Report(|db.events|, |db.projects|, |db.effects|, false)))
  {
    hide Replay, LedgerIntact;
    ConsistentLedgerIsIntact(db);
  }

  // -------------------------------------------------------------- repair

  lemma RowsOfTable<T(!new)>(table: map<string, T>)
    ensures var rows, ids := RowsOf(table), AscendingKeys(table.Keys);
            |rows| == |ids| && forall i :: 0 <= i < |rows| ==> ids[i] in table && rows[i] == table[ids[i]]
  {
  }

  ghost function Restricted<T>(table: map<string, T>, ids: seq<string>): map<string, T> {
    map id | id in table && id in ids :: table[id]
  }

  lemma ReinsertProject(source: map<string, Project>, ids: seq<string>, p: Project)
    requires DistinctRoots(source) && forall id :: id in source ==> GoodProject(id, source[id])
    requires p.id in source && p == source[p.id] && p.id !in ids
    ensures ApplyProject(Restricted(source, ids), p, true) == Success(Restricted(source, ids + [p.id]))
  {
    hide ValidProject, ProjectRowAllowed;
    GoodRowIsAllowed(p);
    var table := Restricted(source, ids);
    assert !RootTaken(table, p);
    assert table[p.id := p] == Restricted(source, ids + [p.id]);
  }

  lemma {:induction false} ProjectsReinserted(source: map<string, Project>, ids: seq<string>, rows: seq<Project>)
    requires DistinctRoots(source) && forall id :: id in source ==> GoodProject(id, source[id])
    requires NoDup(ids) && |rows| == |ids| && forall i :: 0 <= i < |ids| ==>
               ids[i] in source && rows[i] == source[ids[i]]
    ensures RebuildProjects(rows) == Success(Restricted(source, ids))
  {
    hide ValidProject, ApplyProject, DistinctRoots, Restricted;
    if rows == [] {
      assert Restricted(source, ids) == map[] by { RestrictedToNone(source, ids); }
    } else {
      var last := |rows| - 1;
      ProjectsReinserted(source, ids[..last], rows[..last]);
      var p := rows[last];
      assert p == source[ids[last]] && p.id == ids[last];
      ReinsertProject(source, ids[..last], p);
      assert ids == ids[..last] + [p.id];
    }
  }

  lemma RestrictedToNone<T>(table: map<string, T>, ids: seq<string>)
    requires ids == []
    ensures Restricted(table, ids) == map[]
  {
  }

  lemma ReinsertEffect(source: map<string, SideEffect>, ids: seq<string>, e: SideEffect)
    requires forall id :: id in source ==> GoodEffect(id, source[id])
    requires e.actionId in source && e == source[e.actionId] && e.actionId !in ids
    ensures ApplyEffect(Restricted(source, ids), e, true) == Success(Restricted(source, ids + [e.actionId]))
  {
    hide ValidSideEffect, EffectRowAllowed;
    GoodEffectIsAllowed(e);
    assert Restricted(source, ids)[e.actionId := e] == Restricted(source, ids + [e.actionId]);
  }

  lemma {:induction false} EffectsReinserted(source: map<string, SideEffect>, ids: seq<string>, rows: seq<SideEffect>)
    requires forall id :: id in source ==> GoodEffect(id, source[id])
    requires NoDup(ids) && |rows| == |ids| && forall i :: 0 <= i < |ids| ==>
               ids[i] in source && rows[i] == source[ids[i]]
    ensures RebuildEffects(rows) == Success(Restricted(source, ids))
  {
    hide ValidSideEffect, ApplyEffect, Restricted;
    if rows == [] {
      assert Restricted(source, ids) == map[] by { RestrictedToNone(source, ids); }
    } else {
      var last := |rows| - 1;
      EffectsReinserted(source, ids[..last], rows[..last]);
      var e := rows[last];
      assert e == source[ids[last]] && e.actionId == ids[last];
      ReinsertEffect(source, ids[..last], e);
      assert ids == ids[..last] + [e.actionId];
    }
  }

  lemma RestrictedToAll<T(!new)>(table: map<string, T>)
    ensures Restricted(table, AscendingKeys(table.Keys)) == table
  {
    var ids := AscendingKeys(table.Keys);
    assert forall id :: id in table ==> id in ids;
  }

  /** Reinserting the rows of the replayed tables meets no constraint and yields those tables. */
  lemma RebuildRestores(db: Database)
    requires Consistent(db)
    ensures RebuildProjects(RowsOf(db.projects)) == Success(db.projects)
    ensures RebuildEffects(RowsOf(db.effects)) == Success(db.effects)
  {
    hide Replay, RebuildProjects, RebuildEffects, RowsOf, ValidProject, ValidSideEffect, DistinctRoots, Restricted;
    ReplayEstablishes(db.events);
    RowsOfTable(db.projects);
    RowsOfTable(db.effects);
    ProjectsReinserted(db.projects, AscendingKeys(db.projects.Keys), RowsOf(db.projects));
    EffectsReinserted(db.effects, AscendingKeys(db.effects.Keys), RowsOf(db.effects));
    RestrictedToAll(db.projects);
    RestrictedToAll(db.effects);
  }

  /** The same log and receipts under any projections whatever. */
  function Damaged(db: Database, wrong: Replayed): Database {
    db.(projects := wrong.projects, effects := wrong.effects, projectCursor := wrong.projectCursor,
        effectCursor := wrong.effectCursor)
  }

  /** Whatever the projections and cursors of a reachable store were changed to, one repairing
      verification brings back exactly the replayed ones, and says whether it had to. */
  lemma RepairRestores(db: Database, wrong: Replayed, stamp: RepairStamp)
    requires Consistent(db)
    ensures var r := Verify(Damaged(db, wrong), true, stamp);
            && r.Success?
            && r.value.report == Report(|db.events|, |db.projects|, |db.effects|, wrong != StateOf(db))
            && r.value.db
               == if wrong == StateOf(db) then db
                  else db.(audit := db.audit + [AuditRow("store.projection_rebuilt", stamp.commandId,
                                                         stamp.correlationId, stamp.at)])
  {
    hide Replay, LedgerIntact, RebuildProjects, RebuildEffects, RowsOf;
    ConsistentLedgerIsIntact(db);
    DamageSparesTheLedger(db, wrong);
    RebuildRestores(db);
  }

  lemma DamageSparesTheLedger(db: Database, wrong: Replayed)
    ensures LedgerIntact(Damaged(db, wrong)) == LedgerIntact(db)
  {
  }

  /** Without repair, verification succeeds exactly when nothing was changed. */
  lemma VerificationDetectsDamage(db: Database, wrong: Replayed, stamp: RepairStamp)
    requires Consistent(db)
    ensures Verify(Damaged(db, wrong), false, stamp)
            == if wrong == StateOf(db)
               then Success(Verified(db, Report(|db.events|, |db.projects|, |db.effects|, false)))
               else Failure(IntegrityFailure)
  {
    hide Replay, LedgerIntact;
    ConsistentLedgerIsIntact(db);
    DamageSparesTheLedger(db, wrong);
  }

  /** Of receipts other than the stored ones, verification accepts only those that leave some out. */
  lemma VerificationDetectsForgedReceipts(db: Database, receipts: map<string, ReceiptRow>, stamp: RepairStamp)
    requires Consistent(db)
    ensures Verify(db.(receipts := receipts), false, stamp).Failure? ==>
              Verify(db.(receipts := receipts), false, stamp).error == IntegrityFailure
    ensures Verify(db.(receipts := receipts), false, stamp).Success?
            <==> forall id :: id in receipts ==> id in db.receipts && receipts[id] == db.receipts[id]
  {
    hide Replay, ReceiptMatches;
    var forged := db.(receipts := receipts);
    forall id | id in receipts
      ensures ReceiptMatches(forged.events, id, receipts[id]) <==> id in db.receipts && receipts[id] == db.receipts[id]
    {
      OnlyItsReceiptMatches(db, id, receipts[id]);
    }
    assert LedgerIntact(forged) <==>
             forall id :: id in receipts ==> id in db.receipts && receipts[id] == db.receipts[id];
    hide LedgerIntact, Consistent;
  }

  // ------------------------------------------------ what a receipt covers

  /** The receipt covers exactly the positions of its command, an unbroken stretch of the log, and
      repeats the request and the last revision found there. */
  ghost predicate Covers(events: seq<Event>, id: string, row: ReceiptRow) {
    && row.request.commandId == id && 1 <= row.firstSequence <= row.lastSequence <= |events|
    && (forall i :: 0 <= i < |events| ==>
          (events[i].request.commandId == id <==> row.firstSequence <= i + 1 <= row.lastSequence))
    && (forall i :: row.firstSequence <= i + 1 <= row.lastSequence ==> events[i].request == row.request)
    && events[row.lastSequence - 1].revision == row.revision
  }

  ghost predicate Rising(mine: seq<Event>) {
    forall j, k :: 0 <= j < k < |mine| ==> mine[j].sequence < mine[k].sequence
  }

  ghost predicate InPlace(events: seq<Event>, id: string, e: Event) {
    1 <= e.sequence <= |events| && events[e.sequence - 1] == e && e.request.commandId == id
  }

  /** These are the events of the command, each at its own position in the log. */
  ghost predicate Placed(events: seq<Event>, id: string, mine: seq<Event>) {
    && (forall k :: 0 <= k < |mine| ==> InPlace(events, id, mine[k]))
    && forall i :: 0 <= i < |events| && events[i].request.commandId == id ==> events[i] in mine
  }

  lemma InPlaceStays(init: seq<Event>, id: string, e: Event, last: Event)
    requires InPlace(init, id, e)
    ensures InPlace(init + [last], id, e) && e.sequence <= |init|
  {
  }

  lemma PlacedOneMore(init: seq<Event>, id: string, mine: seq<Event>, e: Event)
    requires Placed(init, id, mine) && Rising(mine) && e.sequence == |init| + 1
    ensures var more := mine + if e.request.commandId == id then [e] else [];
            Placed(init + [e], id, more) && Rising(more)
  {
    var events, more := init + [e], mine + if e.request.commandId == id then [e] else [];
    assert e.request.commandId == id ==> InPlace(events, id, e);
    hide InPlace;
    forall k | 0 <= k < |mine| ensures InPlace(events, id, mine[k]) && mine[k].sequence < e.sequence {
      InPlaceStays(init, id, mine[k], e);
    }
    forall i | 0 <= i < |events| && events[i].request.commandId == id ensures events[i] in more {
      if i < |init| {
        assert events[i] == init[i] && init[i] in mine;
      } else {
        assert more[|more|-1] == e;
      }
    }
  }

  /** The events of a command are those at its positions, in order. */
  lemma {:induction false} EventsOfPositions(events: seq<Event>, id: string)
    requires Numbered(events)
    ensures Placed(events, id, EventsOf(events, id)) && Rising(EventsOf(events, id))
  {
    if events == [] {
    } else {
      var init, last := events[..|events|-1], events[|events|-1];
      EventsOfPositions(init, id);
      hide Placed, Rising;
      PlacedOneMore(init, id, EventsOf(init, id), last);
      assert events == init + [last];
      assert EventsOf(init, id) + [] == EventsOf(init, id);
    }
  }

  lemma {:induction false} RisingGap(mine: seq<Event>, j: nat, k: nat)
    requires Rising(mine) && j <= k < |mine|
    ensures mine[k].sequence - mine[j].sequence >= k - j
    decreases k
  {
    if j == k {
    } else {
      RisingGap(mine, j, k - 1);
    }
  }

  /** As many events as there are positions from the first to the last leave no gap. */
  lemma NoGap(mine: seq<Event>, n: nat)
    requires Rising(mine) && mine != []
    requires |mine| == mine[|mine|-1].sequence - mine[0].sequence + 1
    requires mine[0].sequence <= n <= mine[|mine|-1].sequence
    ensures mine[n - mine[0].sequence].sequence == n
  {
    var k := n - mine[0].sequence;
    RisingGap(mine, 0, k);
    RisingGap(mine, k, |mine| - 1);
  }

  lemma {:induction false} EventsOfStretch(events: seq<Event>, id: string, first: nat, last: nat)
    requires 1 <= first <= last <= |events|
    requires forall i :: 0 <= i < |events| ==> (events[i].request.commandId == id <==> first <= i + 1 <= last)
    ensures EventsOf(events, id) == events[first-1..last]
  {
    var init, e := events[..|events|-1], events[|events|-1];
    if last < |events| {
      EventsOfStretch(init, id, first, last);
      assert init[first-1..last] == events[first-1..last];
    } else if first == last {
      EventsOfNone(init, id);
      assert events[first-1..last] == [e];
    } else {
      EventsOfStretch(init, id, first, last - 1);
      assert events[first-1..last] == init[first-1..last-1] + [e];
    }
  }

  lemma MatchingCovers(events: seq<Event>, id: string, row: ReceiptRow, mine: seq<Event>)
    requires Numbered(events) && Placed(events, id, mine) && Rising(mine) && mine != [] && row.request.commandId == id
    requires |mine| == row.lastSequence - row.firstSequence + 1
    requires mine[0].sequence == row.firstSequence && mine[|mine|-1].sequence == row.lastSequence
    requires mine[|mine|-1].revision == row.revision && forall k :: 0 <= k < |mine| ==> mine[k].request == row.request
    ensures Covers(events, id, row)
  {
    forall i | 0 <= i < |events| && events[i].request.commandId == id
      ensures row.firstSequence <= i + 1 <= row.lastSequence
    {
      var k :| 0 <= k < |mine| && mine[k] == events[i];
      InStretch(events, id, mine, row.request, i, k);
    }
    forall i | row.firstSequence <= i + 1 <= row.lastSequence
      ensures events[i].request.commandId == id && events[i].request == row.request
    {
      NoGap(mine, i + 1);
    }
  }

  /** The event at position i is the one numbered i + 1 among those of its command. */
  lemma InStretch(events: seq<Event>, id: string, mine: seq<Event>, request: Request, i: nat, k: nat)
    requires Rising(mine) && i < |events| && k < |mine| && mine[k] == events[i] && events[i].request.commandId == id
    requires Placed(events, id, mine) && request.commandId == id
    requires forall j :: 0 <= j < |mine| ==> mine[j].request == request
    requires Numbered(events)
    ensures mine[0].sequence <= i + 1 <= mine[|mine|-1].sequence
  {
    RisingGap(mine, 0, k);
    RisingGap(mine, k, |mine| - 1);
  }

  /** In any numbered log, consistent or not, the test of a receipt accepts exactly the receipts
      that cover the events of their command. */
  lemma ReceiptMeaning(events: seq<Event>, id: string, row: ReceiptRow)
    requires Numbered(events)
    ensures ReceiptMatches(events, id, row) <==> Covers(events, id, row)
  {
    hide EventsOf, Placed, Rising;
    EventsOfPositions(events, id);
    if ReceiptMatches(events, id, row) {
      hide Covers;
      MatchingCovers(events, id, row, EventsOf(events, id));
    } else if Covers(events, id, row) {
      EventsOfStretch(events, id, row.firstSequence, row.lastSequence);
      StretchMatches(events, id, row);
    }
  }

  lemma StretchMatches(events: seq<Event>, id: string, row: ReceiptRow)
    requires Numbered(events) && Covers(events, id, row)
    requires EventsOf(events, id) == events[row.firstSequence-1..row.lastSequence]
    ensures ReceiptMatches(events, id, row)
  {
    hide EventsOf;
  }

  lemma OnlyItsReceiptMatches(db: Database, id: string, row: ReceiptRow)
    requires Numbered(db.events) && DistinctIds(db.events) && Receipted(db.events, db.receipts)
    ensures ReceiptMatches(db.events, id, row) <==> id in db.receipts && row == db.receipts[id]
  {
    hide EventsOf;
    if id in db.receipts {
      var i :| 0 <= i < |db.events| && db.events[i].request.commandId == id;
      EventsOfOne(db.events, i);
      assert db.receipts[id] == RowFor(db.events[i]);
      hide Numbered, DistinctIds, Receipted;
    } else {
      assert forall i :: 0 <= i < |db.events| ==> db.events[i].request.commandId in db.receipts;
      EventsOfNone(db.events, id);
      hide Numbered, DistinctIds, Receipted;
    }
  }

  /** A second verification finds nothing to repair. */
  lemma RepairSettles(db: Database, wrong: Replayed, stamp: RepairStamp, repair: bool, again: RepairStamp)
    requires Consistent(db)
    ensures var first := Verify(Damaged(db, wrong), true, stamp);
            && first.Success? && var once := first.value.db;
            && Consistent(once)
            && Verify(once, repair, again)
               == Success(Verified(once, Report(|db.events|, |db.projects|, |db.effects|, false)))
  {
    hide Replay, Verify;
    RepairRestores(db, wrong, stamp);
    ConsistentVerifies(Verify(Damaged(db, wrong), true, stamp).value.db, repair, again);
  }
}
