/** Start-up: interrupted side effects are settled, and a second start-up has nothing to do. */
module StoreRecovery {
  import opened Orders
  import opened StoreCommits
  import opened StoreConsistency
  import opened StoreModel
  import opened StoreRepair
  import opened StoreTables
  import opened Wrappers

  /** The first identifiers generated are well-formed, not in use, and pairwise distinct. */
  ghost predicate FreshSupply(db: Database, supply: nat -> FreshIds, count: nat) {
    && (forall k: nat :: k < count ==>
          UuidV7(supply(k).commandId) && UuidV7(supply(k).correlationId)
          && supply(k).commandId !in db.receipts && FreshEvent(db, supply(k).eventId))
    && (forall j: nat, k: nat :: j < k < count ==>
          supply(j).commandId != supply(k).commandId && supply(j).eventId != supply(k).eventId)
  }

  /** The clock allows settling the side effect: recovery validates the settled record. */
  predicate CanSettle(effect: SideEffect, now: nat) {
    effect.authorizedAt <= now <= MAX_SAFE_JSON_INTEGER
  }

  function Settled(effect: SideEffect, now: nat, sequence: nat): SideEffect {
    effect.(phase := Unknown, revision := effect.revision + 1, updatedAt := now, lastEventSequence := sequence)
  }

  function SettlingEvent(effect: SideEffect, ids: FreshIds, now: nat, sequence: nat): Event {
    NewEvent(sequence, RecoveryEnvelope(effect, ids, now), EffectOutcomeUnknown, effect.revision + 1, ids.eventId)
  }

  // ------------------------------------------------ one interrupted action

  lemma RecoveryEnvelopeIsValid(effect: SideEffect, ids: FreshIds, now: nat)
    requires GoodEffect(effect.actionId, effect) && UuidV7(ids.commandId) && UuidV7(ids.correlationId)
    ensures ValidateEnvelope(RecoveryEnvelope(effect, ids, now)).Success? <==> now <= MAX_SAFE_JSON_INTEGER
  {
    hide UuidV7, ValidGrant;
    var actor := "startup-recovery";
    assert Identifier(actor);
  }

  ghost predicate Interrupted(db: Database, effect: SideEffect, ids: FreshIds) {
    && Consistent(db) && effect.actionId in db.effects && db.effects[effect.actionId] == effect
    && effect.phase == Started
    && UuidV7(ids.commandId) && UuidV7(ids.correlationId) && ids.commandId !in db.receipts
    && FreshEvent(db, ids.eventId)
  }

  lemma RecoveryCommits(db: Database, effect: SideEffect, ids: FreshIds, now: nat)
    requires Interrupted(db, effect, ids)
    ensures RecoverOne(db, effect, ids, now).Success? <==> CanSettle(effect, now)
    ensures CanSettle(effect, now) ==>
              && Executable(db, RecoveryEnvelope(effect, ids, now), ids.eventId)
              && ExecuteEffect(db, RecoveryEnvelope(effect, ids, now), MarkUnknown, ids.eventId).Success?
              && RecoverOne(db, effect, ids, now).value
                 == ExecuteEffect(db, RecoveryEnvelope(effect, ids, now), MarkUnknown, ids.eventId).value.db
  {
    var env := RecoveryEnvelope(effect, ids, now);
    assert GoodEffect(effect.actionId, effect) by { ReplayEstablishes(db.events); }
    RecoveryEnvelopeIsValid(effect, ids, now);
    hide Consistent, ValidateEnvelope, ExecuteEffect, UuidV7, FreshEvent, ValidSideEffect;
    if ValidateEnvelope(env).Success? {
      EffectCommitCondition(db, env, MarkUnknown, ids.eventId);
    }
  }

  /** The tables after one side effect was settled. */
  function AfterSettling(db: Database, effect: SideEffect, ids: FreshIds, now: nat): Database {
    var n := |db.events| + 1;
    var e := SettlingEvent(effect, ids, now, n);
    Audited(Database(db.events + [e], db.receipts[ids.commandId := RowFor(e)], db.projects,
                     db.effects[effect.actionId := Settled(effect, now, n)], db.projectCursor, n, db.audit),
            RecoveryEnvelope(effect, ids, now))
  }

  /** Settling one side effect succeeds exactly when the clock allows it, and then changes
      nothing but that side effect. */
  lemma OneRecovery(db: Database, effect: SideEffect, ids: FreshIds, now: nat)
    requires Interrupted(db, effect, ids)
    ensures RecoverOne(db, effect, ids, now).Success? <==> CanSettle(effect, now)
    ensures CanSettle(effect, now) ==>
              RecoverOne(db, effect, ids, now) == Success(AfterSettling(db, effect, ids, now))
              && Consistent(AfterSettling(db, effect, ids, now))
  {
    hide Consistent, ExecuteEffect, Executable, FreshEvent, UuidV7;
    RecoveryCommits(db, effect, ids, now);
    if CanSettle(effect, now) {
      var env := RecoveryEnvelope(effect, ids, now);
      EffectCommitReplays(db, env, MarkUnknown, ids.eventId);
      EffectCommitted(db, env, MarkUnknown, ids.eventId);
      EffectCommitKeepsConsistency(db, env, MarkUnknown, ids.eventId);
    }
  }

  // ------------------------------------------------ all interrupted actions

  /** Distinct side effects of the store, all started. */
  ghost predicate AllStarted(db: Database, found: seq<SideEffect>) {
    && (forall i :: 0 <= i < |found| ==>
          found[i].phase == Started && found[i].actionId in db.effects && db.effects[found[i].actionId] == found[i])
    && (forall i, j :: 0 <= i < j < |found| ==> found[i].actionId != found[j].actionId)
  }

  ghost predicate AmongFound(found: seq<SideEffect>, id: string) {
    exists i :: 0 <= i < |found| && found[i].actionId == id
  }

  lemma AmongOneMore(found: seq<SideEffect>, effect: SideEffect, id: string)
    ensures AmongFound(found + [effect], id) <==> AmongFound(found, id) || effect.actionId == id
  {
    var all := found + [effect];
    if AmongFound(found, id) {
      var i :| 0 <= i < |found| && found[i].actionId == id;
      assert all[i].actionId == id;
    }
    if effect.actionId == id {
      assert all[|found|].actionId == id;
    }
  }

  lemma NotAmongBefore(db: Database, found: seq<SideEffect>, effect: SideEffect)
    requires AllStarted(db, found + [effect])
    ensures effect.phase == Started && effect.actionId in db.effects && db.effects[effect.actionId] == effect
    ensures !AmongFound(found, effect.actionId)
  {
    var all := found + [effect];
    assert all[|found|] == effect;
    assert forall i :: 0 <= i < |found| ==> all[i] == found[i] && found[i].actionId != effect.actionId;
  }

  /** Exactly the side effects found are settled, in order; every other row stays. */
  ghost predicate EffectsSettled(db: Database, after: Database, found: seq<SideEffect>, now: nat) {
    && after.projects == db.projects && after.projectCursor == db.projectCursor
    && after.effects.Keys == db.effects.Keys
    && (forall i :: 0 <= i < |found| ==>
          found[i].actionId in after.effects
          && after.effects[found[i].actionId] == Settled(found[i], now, |db.events| + i + 1))
    && (forall id :: id in db.effects && !AmongFound(found, id) ==> after.effects[id] == db.effects[id])
  }

  /** The log grew by one event for each side effect found, and by nothing else. */
  ghost predicate LogSettled(db: Database, after: Database, found: seq<SideEffect>, supply: nat -> FreshIds, now: nat) {
    && |after.events| == |db.events| + |found|
    && (forall i :: 0 <= i < |db.events| ==> after.events[i] == db.events[i])
    && (forall i :: 0 <= i < |found| ==>
          after.events[|db.events| + i] == SettlingEvent(found[i], supply(i), now, |db.events| + i + 1))
  }

  ghost predicate SuppliedId(supply: nat -> FreshIds, count: nat, id: string) {
    exists i: nat :: i < count && supply(i).commandId == id
  }

  ghost predicate ReceiptsSettled(db: Database, after: Database, supply: nat -> FreshIds, count: nat) {
    && (forall id :: id in db.receipts ==> id in after.receipts && after.receipts[id] == db.receipts[id])
    && (forall id :: id in after.receipts ==> id in db.receipts || SuppliedId(supply, count, id))
  }

  ghost predicate AllSettled(db: Database, after: Database, found: seq<SideEffect>, supply: nat -> FreshIds, now: nat) {
    && EffectsSettled(db, after, found, now) && LogSettled(db, after, found, supply, now)
    && ReceiptsSettled(db, after, supply, |found|)
  }

  lemma NoneSettled(db: Database, supply: nat -> FreshIds, now: nat)
    ensures AllSettled(db, db, [], supply, now)
  {
  }

  /** The next side effect is still as it was found, and its identifiers are still free. */
  lemma StillInterrupted(db: Database, mid: Database, found: seq<SideEffect>, effect: SideEffect,
      supply: nat -> FreshIds, now: nat)
    requires FreshSupply(db, supply, |found| + 1) && Consistent(mid) && AllSettled(db, mid, found, supply, now)
    requires AllStarted(db, found + [effect])
    ensures Interrupted(mid, effect, supply(|found|))
  {
    hide Consistent, Settled, UuidV7, AllStarted, AmongFound, LogSettled, ReceiptsSettled;
    NotAmongBefore(db, found, effect);
    assert effect.actionId in mid.effects.Keys;
    IdsStillFree(db, mid, found, supply, now);
  }

  lemma IdsStillFree(db: Database, mid: Database, found: seq<SideEffect>, supply: nat -> FreshIds, now: nat)
    requires FreshSupply(db, supply, |found| + 1) && AllSettled(db, mid, found, supply, now)
    ensures var ids := supply(|found|);
            UuidV7(ids.commandId) && UuidV7(ids.correlationId) && ids.commandId !in mid.receipts
            && FreshEvent(mid, ids.eventId)
  {
    hide UuidV7, EffectsSettled, Settled, RecoveryEnvelope;
    var k := |found|;
    assert UuidV7(supply(k).commandId) && UuidV7(supply(k).correlationId) && FreshEvent(db, supply(k).eventId);
    assert !SuppliedId(supply, k, supply(k).commandId);
    forall i | 0 <= i < |mid.events| ensures mid.events[i].eventId != supply(k).eventId {
      if i >= |db.events| {
        assert mid.events[|db.events| + (i - |db.events|)].eventId == supply(i - |db.events|).eventId;
      }
    }
  }

  lemma EffectsSettledOneMore(db: Database, mid: Database, found: seq<SideEffect>, effect: SideEffect,
      supply: nat -> FreshIds, now: nat)
    requires EffectsSettled(db, mid, found, now) && |mid.events| == |db.events| + |found|
             && AllStarted(db, found + [effect])
    ensures EffectsSettled(db, AfterSettling(mid, effect, supply(|found|), now), found + [effect], now)
  {
    hide Settled, SettlingEvent, RecoveryEnvelope, AmongFound, AllStarted;
    var after, all := AfterSettling(mid, effect, supply(|found|), now), found + [effect];
    NotAmongBefore(db, found, effect);
    assert effect.actionId in mid.effects.Keys;
    forall i | 0 <= i < |all|
      ensures all[i].actionId in after.effects
              && after.effects[all[i].actionId] == Settled(all[i], now, |db.events| + i + 1)
    {
      if i < |found| {
        assert all[i] == found[i] && AmongFound(found, found[i].actionId) by { FoundIsAmong(found, i); }
      }
    }
    forall id | id in db.effects && !AmongFound(all, id) ensures after.effects[id] == db.effects[id] {
      AmongOneMore(found, effect, id);
    }
  }

  lemma FoundIsAmong(found: seq<SideEffect>, i: nat)
    requires i < |found|
    ensures AmongFound(found, found[i].actionId)
  {
  }

  lemma LogSettledOneMore(db: Database, mid: Database, found: seq<SideEffect>, effect: SideEffect,
      supply: nat -> FreshIds, now: nat)
    requires LogSettled(db, mid, found, supply, now) && ReceiptsSettled(db, mid, supply, |found|)
             && supply(|found|).commandId !in db.receipts
    ensures LogSettled(db, AfterSettling(mid, effect, supply(|found|), now), found + [effect], supply, now)
    ensures ReceiptsSettled(db, AfterSettling(mid, effect, supply(|found|), now), supply, |found| + 1)
  {
    hide Settled, SettlingEvent, RecoveryEnvelope;
    var after := AfterSettling(mid, effect, supply(|found|), now);
    forall id | id in after.receipts ensures id in db.receipts || SuppliedId(supply, |found| + 1, id) {
      if id in mid.receipts && id !in db.receipts {
        var i: nat :| i < |found| && supply(i).commandId == id;
      } else if id !in mid.receipts {
        assert supply(|found|).commandId == id;
      }
    }
  }

  lemma SettledOneMore(db: Database, mid: Database, found: seq<SideEffect>, effect: SideEffect,
      supply: nat -> FreshIds, now: nat)
    requires AllSettled(db, mid, found, supply, now) && AllStarted(db, found + [effect])
             && FreshSupply(db, supply, |found| + 1)
    ensures AllSettled(db, AfterSettling(mid, effect, supply(|found|), now), found + [effect], supply, now)
  {
    assert supply(|found|).commandId !in db.receipts;
    assert |mid.events| == |db.events| + |found|;
    hide EffectsSettled, LogSettled, ReceiptsSettled, AfterSettling, AllStarted, FreshSupply;
    EffectsSettledOneMore(db, mid, found, effect, supply, now);
    LogSettledOneMore(db, mid, found, effect, supply, now);
  }

  lemma FewerAreFresh(db: Database, supply: nat -> FreshIds, count: nat)
    requires FreshSupply(db, supply, count) && count > 0
    ensures FreshSupply(db, supply, count - 1)
  {
    hide UuidV7, FreshEvent;
  }

  ghost predicate CanSettleAll(found: seq<SideEffect>, now: nat) {
    forall i :: 0 <= i < |found| ==> CanSettle(found[i], now)
  }

  /** Recovery succeeds exactly when the clock allows every settling, and then settles exactly
      the side effects found. */
  lemma {:induction false} RecoverySettles(db: Database, found: seq<SideEffect>, supply: nat -> FreshIds, now: nat)
    requires Consistent(db) && AllStarted(db, found) && FreshSupply(db, supply, |found|)
    ensures RecoverAll(db, found, supply, now).Success? <==> CanSettleAll(found, now)
    ensures CanSettleAll(found, now) ==>
              var after := RecoverAll(db, found, supply, now).value;
              Consistent(after) && AllSettled(db, after, found, supply, now)
  {
    hide Consistent, AllSettled, FreshSupply, RecoverOne, CanSettle, AfterSettling;
    if found == [] {
      NoneSettled(db, supply, now);
    } else {
      var last := |found| - 1;
      var init, effect := found[..last], found[last];
      assert found == init + [effect];
      assert FreshSupply(db, supply, last) by { FewerAreFresh(db, supply, |found|); }
      RecoverySettles(db, init, supply, now);
      if CanSettleAll(init, now) {
        hide AllStarted;
        var mid := RecoverAll(db, init, supply, now).value;
        StillInterrupted(db, mid, init, effect, supply, now);
        OneRecovery(mid, effect, supply(last), now);
        SettledOneMore(db, mid, init, effect, supply, now);
      }
    }
  }

  // ------------------------------------------------------------- start-up

  predicate NoneStarted(db: Database) {
    forall id :: id in db.effects ==> db.effects[id].phase != Started
  }

  /** The clock allows settling every started side effect. */
  predicate ClockAllows(db: Database, now: nat) {
    forall id :: id in db.effects && db.effects[id].phase == Started ==> CanSettle(db.effects[id], now)
  }

  /** What start-up finds is what is started. */
  lemma FoundAreStarted(db: Database)
    requires Consistent(db)
    ensures AllStarted(db, StartedEffects(db))
    ensures forall id :: id in db.effects && db.effects[id].phase == Started ==> AmongFound(StartedEffects(db), id)
  {
    assert forall id :: id in db.effects ==> db.effects[id].actionId == id by { ReplayEstablishes(db.events); }
    hide Consistent, RowsOf, AllStarted, AmongFound, GoodEffect;
    RowsOfTable(StartedTable(db));
    RowsAreStarted(db, AscendingKeys(StartedTable(db).Keys), StartedEffects(db));
  }

  lemma RowsAreStarted(db: Database, ids: seq<string>, rows: seq<SideEffect>)
    requires forall id :: id in db.effects ==> db.effects[id].actionId == id
    requires NoDup(ids) && |rows| == |ids| && forall id :: id in ids <==> id in StartedTable(db)
    requires forall i :: 0 <= i < |rows| ==> ids[i] in StartedTable(db) && rows[i] == StartedTable(db)[ids[i]]
    ensures AllStarted(db, rows)
    ensures forall id :: id in db.effects && db.effects[id].phase == Started ==> AmongFound(rows, id)
  {
    assert forall i :: 0 <= i < |rows| ==> rows[i].actionId == ids[i];
    forall id | id in db.effects && db.effects[id].phase == Started ensures AmongFound(rows, id) {
      assert id in StartedTable(db) && id in ids;
      var i :| 0 <= i < |ids| && ids[i] == id;
      assert rows[i].actionId == id;
    }
  }

  lemma ClockAllowsFound(db: Database, now: nat)
    requires Consistent(db)
    ensures CanSettleAll(StartedEffects(db), now) <==> ClockAllows(db, now)
  {
    hide Consistent, CanSettle;
    FoundAreStarted(db);
    hide StartedEffects;
    var found := StartedEffects(db);
    if CanSettleAll(found, now) {
      forall id | id in db.effects && db.effects[id].phase == Started ensures CanSettle(db.effects[id], now) {
        var i :| 0 <= i < |found| && found[i].actionId == id;
      }
    }
  }

  /** Nothing is started once the side effects found were settled. */
  lemma NothingStaysStarted(db: Database, after: Database, now: nat)
    requires Consistent(db) && EffectsSettled(db, after, StartedEffects(db), now)
    ensures NoneStarted(after)
  {
    hide Consistent;
    FoundAreStarted(db);
    hide StartedEffects;
    var found := StartedEffects(db);
    forall id | id in after.effects ensures after.effects[id].phase != Started {
      assert id in db.effects.Keys;
      if AmongFound(found, id) {
        var i :| 0 <= i < |found| && found[i].actionId == id;
      }
    }
  }

  /** Start-up on a reachable log under arbitrary projections: it succeeds exactly when the
      clock is not behind any started side effect's authorization, and then everything
      started, and nothing else, has been settled. A failure leaves the repaired tables. */
  lemma OpenRecovers(db: Database, wrong: Replayed, stamp: RepairStamp, supply: nat -> FreshIds, now: nat)
    requires Consistent(db) && FreshSupply(db, supply, |StartedEffects(db)|)
    ensures var o, repaired := Open(Damaged(db, wrong), stamp, supply, now), Verify(Damaged(db, wrong), true, stamp);
            && (o.outcome.Success? <==> ClockAllows(db, now))
            && repaired.Success? && Consistent(o.db)
            && (o.outcome.Failure? ==> o.db == repaired.value.db)
            && (o.outcome.Success? ==>
                  && NoneStarted(o.db) && AllSettled(db, o.db, StartedEffects(db), supply, now)
                  && o.outcome.value == OpenReport(Report(|db.events|, |db.projects|, |db.effects|,
                                                          wrong != StateOf(db)), |StartedEffects(db)|))
  {
    hide Consistent, Verify, FreshSupply, StartedEffects, ClockAllows, NoneStarted, AllSettled, CanSettleAll,
         RecoverAll, StateOf;
    RepairRestores(db, wrong, stamp);
    RepairSettles(db, wrong, stamp, true, stamp);
    var repaired := Verify(Damaged(db, wrong), true, stamp).value.db;
    SameForRepaired(db, repaired, supply, now);
    RecoverySucceeds(repaired, supply, now);
    if ClockAllows(repaired, now) {
      SameSettled(db, repaired, Recover(repaired, supply, now).value, StartedEffects(db), supply, now);
    }
  }

  lemma RecoverySucceeds(db: Database, supply: nat -> FreshIds, now: nat)
    requires Consistent(db) && FreshSupply(db, supply, |StartedEffects(db)|)
    ensures Recover(db, supply, now).Success? <==> ClockAllows(db, now)
    ensures ClockAllows(db, now) ==>
              var after := Recover(db, supply, now).value;
              Consistent(after) && NoneStarted(after) && AllSettled(db, after, StartedEffects(db), supply, now)
  {
    hide Consistent, FreshSupply, StartedEffects, ClockAllows, NoneStarted, AllStarted, CanSettleAll, RecoverAll;
    FoundAreStarted(db);
    ClockAllowsFound(db, now);
    RecoverySettles(db, StartedEffects(db), supply, now);
    if ClockAllows(db, now) {
      hide EffectsSettled, LogSettled, ReceiptsSettled;
      NothingStaysStarted(db, Recover(db, supply, now).value, now);
    }
  }

  /** The audit log plays no part in recovery. */
  lemma SameForRepaired(db: Database, repaired: Database, supply: nat -> FreshIds, now: nat)
    requires repaired == db.(audit := repaired.audit) && FreshSupply(db, supply, |StartedEffects(db)|)
    ensures StartedEffects(db) == StartedEffects(repaired) && FreshSupply(repaired, supply, |StartedEffects(repaired)|)
    ensures ClockAllows(repaired, now) == ClockAllows(db, now)
  {
    hide RowsOf, CanSettle, UuidV7;
    assert StartedTable(db) == StartedTable(repaired);
    assert forall id :: FreshEvent(db, id) ==> FreshEvent(repaired, id);
  }

  lemma SameSettled(db: Database, repaired: Database, after: Database, found: seq<SideEffect>,
      supply: nat -> FreshIds, now: nat)
    requires repaired == db.(audit := repaired.audit) && AllSettled(repaired, after, found, supply, now)
    ensures AllSettled(db, after, found, supply, now)
  {
    hide Settled, SettlingEvent, AmongFound, SuppliedId;
  }

  /** An immediate second start-up recovers nothing and changes nothing. */
  lemma SecondOpenIsIdle(db: Database, stamp: RepairStamp, supply: nat -> FreshIds, now: nat)
    requires Consistent(db) && NoneStarted(db)
    ensures Open(db, stamp, supply, now)
            == Opened(db, Success(OpenReport(Report(|db.events|, |db.projects|, |db.effects|, false), 0)))
  {
    hide Verify, RecoverAll;
    ConsistentVerifies(db, true, stamp);
    FoundAreStarted(db);
    hide Consistent, StartedEffects;
    hide AllStarted, NoneStarted;
    if StartedEffects(db) != [] {
      FoundMeansStarted(db, StartedEffects(db));
    }
    NothingToRecover(db, supply, now);
  }

  lemma FoundMeansStarted(db: Database, found: seq<SideEffect>)
    requires AllStarted(db, found) && found != []
    ensures !NoneStarted(db)
  {
    var id := found[0].actionId;
    assert id in db.effects && db.effects[id].phase == Started;
  }

  lemma NothingToRecover(db: Database, supply: nat -> FreshIds, now: nat)
    ensures RecoverAll(db, [], supply, now) == Success(db)
  {
  }

  /** After a start-up that succeeded, whatever it had to repair and settle, the next one is idle. */
  lemma ReopeningIsIdle(db: Database, wrong: Replayed, stamp: RepairStamp, supply: nat -> FreshIds, now: nat,
                        nextStamp: RepairStamp, nextSupply: nat -> FreshIds, next: nat)
    requires Consistent(db) && FreshSupply(db, supply, |StartedEffects(db)|) && ClockAllows(db, now)
    ensures var first := Open(Damaged(db, wrong), stamp, supply, now).db;
            Open(first, nextStamp, nextSupply, next)
            == Opened(first, Success(OpenReport(Report(|first.events|, |first.projects|, |first.effects|, false), 0)))
  {
    hide Consistent, FreshSupply, StartedEffects, ClockAllows, NoneStarted, Open, Verify;
    OpenRecovers(db, wrong, stamp, supply, now);
    SecondOpenIsIdle(Open(Damaged(db, wrong), stamp, supply, now).db, nextStamp, nextSupply, next);
  }
}
