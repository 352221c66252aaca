/** What a decision answers, in terms of the snapshot alone: in which order the tasks of a
    project are taken, and for which reason the others are left. */
module SchedulerAnswers {
  import opened Orders
  import opened Scheduler
  import opened SchedulerPartition
  import opened SchedulerRuns
  import opened SchedulerSafety
  import opened Scopes
  import opened Wrappers

  // ------------------------------------------- what stands against a task

  /** The project of t already runs as many tasks as it may. */
  ghost predicate ProjectIsFull(snap: Snapshot, taken: seq<Task>, t: Task) {
    multiset(ProjectKeys(snap.activeRuns) + TaskProjects(taken))[t.projectId] >= snap.limits.perProjectMaxRuns
  }

  /** The adapter or the account that t is routed to already runs as many tasks as it may. */
  ghost predicate RouteIsFull(snap: Snapshot, taken: seq<Task>, t: Task) {
    var adapter, account := RouteOf(snap.routeByTask, t).adapterId, RouteOf(snap.routeByTask, t).accountId;
    || (adapter in snap.limits.perAdapterMaxRuns
        && multiset(AdapterKeys(snap.activeRuns) + TaskAdapters(snap.routeByTask, taken))[adapter]
           >= snap.limits.perAdapterMaxRuns[adapter])
    || (account in snap.limits.perAccountMaxRuns
        && multiset(AccountKeys(snap.activeRuns) + TaskAccounts(snap.routeByTask, taken))[account]
           >= snap.limits.perAccountMaxRuns[account])
  }

  /** Something running or taken in the project of t conflicts with what t writes. */
  ghost predicate Collides(snap: Snapshot, taken: seq<Task>, t: Task) {
    exists scopes :: Occupied(snap.activeRuns, taken, t.projectId, scopes)
                     && Conflict(t.writeScopes, scopes, snap.limits.unknownWriteScopeConflicts)
  }

  ghost predicate Occupied(runs: seq<ActiveRun>, taken: seq<Task>, projectId: string, scopes: seq<string>) {
    || (exists r :: r in runs && r.projectId == projectId && r.writeScopes == scopes)
    || (exists t :: t in taken && t.projectId == projectId && t.writeScopes == scopes)
  }

  /** Why a task is dropped when its turn comes and `taken` is what has been selected so far. */
  ghost function DropReason(snap: Snapshot, taken: seq<Task>, t: Task): Option<BlockReason> {
    if ProjectIsFull(snap, taken, t) then Some(BlockedConcurrency)
    else if Collides(snap, taken, t) then Some(BlockedConflict)
    else if RouteIsFull(snap, taken, t) then Some(BlockedConcurrency)
    else None
  }

  /** t was dropped for this reason before selection number `upto`. */
  ghost predicate DroppedBy(snap: Snapshot, selected: seq<Task>, upto: nat, t: Task, reason: BlockReason) {
    exists k: nat | k <= upto && k <= |selected| :: DropReason(snap, selected[..k], t) == Some(reason)
  }

  // ------------------------------------------------ the loop's own tables

  /** The scope table lists exactly what the active runs and the selected tasks write. */
  ghost predicate ScopesListed(runs: seq<ActiveRun>, st: State) {
    forall id, scopes :: Listed(scopes, st.scopes, id) <==> Occupied(runs, st.selected, id, scopes)
  }

  lemma AddLists(table: ScopeTable, other: string, more: seq<string>, id: string, scopes: seq<string>)
    ensures Listed(scopes, AddScopes(table, other, more), id)
            <==> Listed(scopes, table, id) || (id == other && scopes == more)
  {
    AddKeepsListed(scopes, table, id, other, more);
    var table' := AddScopes(table, other, more);
    if i :| 0 <= i < |ScopesIn(table', id)| && ScopesIn(table', id)[i] == scopes {
      if id != other || i < |ScopesIn(table, id)| {
        assert ScopesIn(table, id)[i] == scopes;
      }
    }
  }

  lemma {:induction false} ActiveTableLists(runs: seq<ActiveRun>, id: string, scopes: seq<string>)
    ensures Listed(scopes, ActiveTable(runs), id) <==> Occupied(runs, [], id, scopes)
  {
    if runs == [] {
    } else {
      var init, r := runs[..|runs|-1], runs[|runs|-1];
      ActiveTableLists(init, id, scopes);
      AddLists(ActiveTable(init), r.projectId, r.writeScopes, id, scopes);
      assert forall x :: x in runs <==> x in init || x == r;
    }
  }

  lemma OccupiedSnoc(runs: seq<ActiveRun>, taken: seq<Task>, t: Task, id: string, scopes: seq<string>)
    ensures Occupied(runs, taken + [t], id, scopes)
            <==> Occupied(runs, taken, id, scopes) || (id == t.projectId && scopes == t.writeScopes)
  {
    if id == t.projectId && scopes == t.writeScopes {
      assert t in taken + [t];
    }
  }

  lemma VisitKeepsListing(env: Setting, runs: seq<ActiveRun>, st: State)
    requires st.cursor < |env.order| && Homogeneous(st.queues) && ScopesListed(runs, st)
    ensures ScopesListed(runs, Visit(env, st))
  {
    hide Visit, KindOf, Listed, Occupied, AddScopes, Refusal;
    if KindOf(env, st) == Selects {
      VisitHomogeneous(env, st);
      WhenSelecting(env, st);
      var t := HeadQueue(env, st)[0];
      forall id, scopes
        ensures Listed(scopes, Visit(env, st).scopes, id) <==> Occupied(runs, Visit(env, st).selected, id, scopes)
      {
        AddLists(st.scopes, t.projectId, t.writeScopes, id, scopes);
        OccupiedSnoc(runs, st.selected, t, id, scopes);
      }
    } else {
      WhenPassing(env, st);
    }
  }

  lemma ClashIsCollision(snap: Snapshot, st: State, t: Task)
    requires ScopesListed(snap.activeRuns, st)
    ensures Clashes(st.scopes, t, snap.limits.unknownWriteScopeConflicts) <==> Collides(snap, st.selected, t)
  {
    hide Conflict, Occupied;
    var lists, unknown := ScopesIn(st.scopes, t.projectId), snap.limits.unknownWriteScopeConflicts;
    if i :| 0 <= i < |lists| && Conflict(t.writeScopes, lists[i], unknown) {
      assert Listed(lists[i], st.scopes, t.projectId);
    }
    if scopes :| Occupied(snap.activeRuns, st.selected, t.projectId, scopes)
                 && Conflict(t.writeScopes, scopes, unknown) {
      assert Listed(scopes, st.scopes, t.projectId);
      var i :| 0 <= i < |lists| && lists[i] == scopes;
    }
  }

  /** The loop's counters say how often each key occurs among the running and the selected. */
  lemma CountsAreCounts(env: Setting, runs: seq<ActiveRun>, st: State)
    requires Counted(env, runs, st)
    ensures forall key :: Count(st.projectRuns, key) == multiset(ProjectKeys(runs) + TaskProjects(st.selected))[key]
    ensures forall key :: Count(st.adapterRuns, key)
                       == multiset(AdapterKeys(runs) + TaskAdapters(env.routeByTask, st.selected))[key]
    ensures forall key :: Count(st.accountRuns, key)
                       == multiset(AccountKeys(runs) + TaskAccounts(env.routeByTask, st.selected))[key]
  {
    hide Tally, Count;
    forall key
      ensures Count(st.projectRuns, key) == multiset(ProjectKeys(runs) + TaskProjects(st.selected))[key]
      ensures Count(st.adapterRuns, key)
           == multiset(AdapterKeys(runs) + TaskAdapters(env.routeByTask, st.selected))[key]
      ensures Count(st.accountRuns, key)
           == multiset(AccountKeys(runs) + TaskAccounts(env.routeByTask, st.selected))[key]
    {
      TallyCounts(ProjectKeys(runs) + TaskProjects(st.selected), key);
      TallyCounts(AdapterKeys(runs) + TaskAdapters(env.routeByTask, st.selected), key);
      TallyCounts(AccountKeys(runs) + TaskAccounts(env.routeByTask, st.selected), key);
    }
  }

  // ------------------------------------------------------ ranked queues

  /** Every task has the rank of, or comes before, those that follow it. */
  ghost predicate Ranked(leq: Collation, tasks: seq<Task>) {
    forall i, j :: 0 <= i < j < |tasks| ==> TaskLeq(leq, tasks[i], tasks[j])
  }

  lemma StableOrderIsRanked(leq: Collation, tasks: seq<Task>)
    requires TotalOrder(leq)
    ensures Ranked(leq, StableOrder(leq, tasks))
  {
    TaskOrderIsTotal(leq);
    SortSorts(tasks, (a, b) => TaskLeq(leq, a, b));
  }

  lemma LaneIsRanked(leq: Collation, obstacle: Task -> Option<BlockReason>, tasks: seq<Task>, p: string)
    requires Ranked(leq, tasks)
    ensures Ranked(leq, Lane(obstacle, tasks, p))
  {
    hide TaskLeq;
    var lane := Lane(obstacle, tasks, p);
    LaneIsSubsequence(obstacle, tasks, p);
    var f :| Embeds(f, lane, tasks);
    forall i, j | 0 <= i < j < |lane| ensures TaskLeq(leq, lane[i], lane[j]) {
      assert f[i] < f[j];
    }
  }

  /** The queues are ranked, a selected task ranks before what its project selects or queues after it. */
  ghost predicate RankedState(leq: Collation, st: State) {
    && Homogeneous(st.queues)
    && (forall p :: p in st.queues ==> Ranked(leq, st.queues[p]))
    && (forall i, t :: 0 <= i < |st.selected| && t in QueueOf(st.queues, st.selected[i].projectId)
                       ==> TaskLeq(leq, st.selected[i], t))
    && (forall i, j :: 0 <= i < j < |st.selected| && st.selected[i].projectId == st.selected[j].projectId
                       ==> TaskLeq(leq, st.selected[i], st.selected[j]))
  }

  lemma VisitKeepsRanks(leq: Collation, env: Setting, st: State)
    requires st.cursor < |env.order| && RankedState(leq, st)
    ensures RankedState(leq, Visit(env, st))
  {
    hide Visit, KindOf, TaskLeq, Refusal, Increment, AddScopes;
    var queue, next := HeadQueue(env, st), Visit(env, st);
    VisitHomogeneous(env, st);
    QueuesAfter(env, st, KindOf(env, st));
    assert forall t :: t in QueueAfter(env, st) ==> t in queue;
    assert queue != [] ==> forall i :: 0 <= i < |queue| - 1 ==> queue[1..][i] == queue[i+1];
    if KindOf(env, st) == Selects {
      WhenSelecting(env, st);
    } else {
      WhenPassing(env, st);
    }
  }

  // ------------------------------------------- what a visit does to a task

  /** What is known of the loop's variables at every visit. */
  ghost predicate Steady(leq: Collation, snap: Snapshot, ready: seq<Task>, env: Setting, st: State) {
    && Partitioned(IdSet(ready), st) && ReasonsStand(ObstacleIn(snap), ready, st)
    && RankedState(leq, st) && Counted(env, snap.activeRuns, st) && ScopesListed(snap.activeRuns, st)
  }

  ghost predicate Fits(snap: Snapshot, ready: seq<Task>, env: Setting) {
    DistinctTasks(ready) && env.limits == snap.limits && env.routeByTask == snap.routeByTask
  }

  lemma ClearIsRouted(snap: Snapshot)
    ensures forall t :: ObstacleIn(snap)(t) == None ==> t.id in snap.routeByTask
  {
  }

  lemma VisitIsSteady(leq: Collation, snap: Snapshot, ready: seq<Task>, env: Setting, st: State)
    requires st.cursor < |env.order| && Fits(snap, ready, env) && Steady(leq, snap, ready, env, st)
    ensures Steady(leq, snap, ready, env, Visit(env, st))
  {
    hide Visit, KindOf, Partitioned, ReasonsStand, ScopesListed, Obstacle, Tally, Refusal, Ranked, TaskLeq;
    VisitKeepsPartition(env, IdSet(ready), st);
    ClearIsRouted(snap);
    VisitKeepsReasons(env, ObstacleIn(snap), ready, st, KindOf(env, st));
    VisitKeepsRanks(leq, env, st);
    VisitKeepsListing(env, snap.activeRuns, st);
    if KindOf(env, st) == Selects {
      SelectingCounts(env, snap.activeRuns, st);
    } else {
      WhenPassing(env, st);
    }
  }

  /** What a visit drops, it drops for the reason that stands against the task just then. */
  lemma DropsAreReasoned(snap: Snapshot, env: Setting, st: State, t: Task)
    requires st.cursor < |env.order| && env.limits == snap.limits && env.routeByTask == snap.routeByTask
    requires Homogeneous(st.queues) && Counted(env, snap.activeRuns, st) && ScopesListed(snap.activeRuns, st)
    requires t.id in snap.routeByTask
    ensures KindOf(env, st) == Full && t in HeadQueue(env, st) ==>
              DropReason(snap, st.selected, t) == Some(BlockedConcurrency)
    ensures KindOf(env, st).Refused? && HeadQueue(env, st) != [] && t == HeadQueue(env, st)[0] ==>
              DropReason(snap, st.selected, t) == Some(KindOf(env, st).reason)
  {
    hide Counted, ScopesListed, Clashes, Collides, Count, Funded;
    CountsAreCounts(env, snap.activeRuns, st);
    ClashIsCollision(snap, st, t);
    assert t in HeadQueue(env, st) ==> t.projectId == Visited(env, st).id;
  }

  /** A visit keeps every reason given; a task it newly blocks stood in the visited queue. */
  lemma BlocksOnlyTheQueue(env: Setting, ids: set<string>, st: State, id: string)
    requires st.cursor < |env.order| && Partitioned(ids, st)
    ensures id in st.blocked ==> id in Visit(env, st).blocked && Visit(env, st).blocked[id] == st.blocked[id]
    ensures id in Visit(env, st).blocked && id !in st.blocked ==>
              match KindOf(env, st)
              case Full => id in IdSet(HeadQueue(env, st)) && Visit(env, st).blocked[id] == BlockedConcurrency
              case Refused(reason) => HeadQueue(env, st) != [] && id == HeadQueue(env, st)[0].id
                                      && Visit(env, st).blocked[id] == reason
              case _ => false
  {
    hide Visit, KindOf;
    var kind, queue := KindOf(env, st), HeadQueue(env, st);
    BlockedAfter(env, st, kind);
    QueuesAfter(env, st, kind);
    if kind == Full {
      BlockKeys(st.blocked, queue, BlockedConcurrency);
      DropAll(st.queues, Visited(env, st).id);
    } else if kind.Refused? {
      DropFront(st.queues, Visited(env, st).id);
    }
  }

  /** A task that was not admitted keeps its reason; an admitted task that has been blocked was
      dropped for the reason it was given. */
  ghost predicate Explained(snap: Snapshot, ready: seq<Task>, st: State) {
    && (forall t :: t in ready && ObstacleIn(snap)(t).Some? ==>
          t.id in st.blocked && st.blocked[t.id] == ObstacleIn(snap)(t).value)
    && forall t :: t in ready && ObstacleIn(snap)(t) == None && t.id in st.blocked ==>
      DroppedBy(snap, st.selected, |st.selected|, t, st.blocked[t.id])
  }

  /** One more selection leaves the earlier moments what they were. */
  lemma DroppedStays(snap: Snapshot, selected: seq<Task>, more: seq<Task>, upto: nat, t: Task, reason: BlockReason)
    requires DroppedBy(snap, selected, upto, t, reason) && selected <= more
    ensures DroppedBy(snap, more, upto, t, reason)
  {
    hide DropReason;
    var k: nat :| k <= upto && k <= |selected| && DropReason(snap, selected[..k], t) == Some(reason);
    assert more[..k] == selected[..k];
  }

  lemma DroppedNow(snap: Snapshot, selected: seq<Task>, t: Task, reason: BlockReason)
    requires DropReason(snap, selected, t) == Some(reason)
    ensures DroppedBy(snap, selected, |selected|, t, reason)
  {
    hide DropReason;
    assert selected[..|selected|] == selected;
  }

  lemma DroppedLater(snap: Snapshot, selected: seq<Task>, upto: nat, later: nat, t: Task, reason: BlockReason)
    requires DroppedBy(snap, selected, upto, t, reason) && upto <= later
    ensures DroppedBy(snap, selected, later, t, reason)
  {
    hide DropReason;
  }

  lemma SelectedGrows(env: Setting, st: State)
    requires st.cursor < |env.order|
    ensures st.selected <= Visit(env, st).selected
    ensures KindOf(env, st) != Selects ==> Visit(env, st).selected == st.selected
  {
    hide Visit, KindOf;
    if KindOf(env, st) == Selects {
      WhenSelecting(env, st);
    } else {
      WhenPassing(env, st);
    }
  }

  /** A ready task with the identifier of a queued one is that one. */
  lemma QueuedIsReady(snap: Snapshot, ready: seq<Task>, env: Setting, st: State, t: Task)
    requires st.cursor < |env.order| && DistinctTasks(ready) && ReasonsStand(ObstacleIn(snap), ready, st)
    requires t in ready && t.id in IdSet(HeadQueue(env, st))
    ensures t in HeadQueue(env, st)
    ensures t.id == HeadQueue(env, st)[0].id ==> t == HeadQueue(env, st)[0]
  {
    hide Obstacle;
    var queue := HeadQueue(env, st);
    assert Unobstructed(ObstacleIn(snap), ready, queue);
    var i :| 0 <= i < |queue| && queue[i].id == t.id;
    assert queue[i] in ready && queue[0] in ready;
  }

  lemma VisitExplains(leq: Collation, snap: Snapshot, ready: seq<Task>, env: Setting, st: State)
    requires st.cursor < |env.order| && Fits(snap, ready, env) && Steady(leq, snap, ready, env, st)
    requires Explained(snap, ready, st)
    ensures Explained(snap, ready, Visit(env, st))
  {
    hide Visit, KindOf, Obstacle, DropReason, Partitioned, ReasonsStand, DroppedBy, ScopesListed, Counted, Ranked;
    var next := Visit(env, st);
    SelectedGrows(env, st);
    ClearIsRouted(snap);
    forall t | t in ready && ObstacleIn(snap)(t).Some?
      ensures t.id in next.blocked && next.blocked[t.id] == ObstacleIn(snap)(t).value
    {
      BlocksOnlyTheQueue(env, IdSet(ready), st, t.id);
    }
    forall t | t in ready && ObstacleIn(snap)(t) == None && t.id in next.blocked
      ensures DroppedBy(snap, next.selected, |next.selected|, t, next.blocked[t.id])
    {
      BlocksOnlyTheQueue(env, IdSet(ready), st, t.id);
      if t.id in st.blocked {
        DroppedStays(snap, st.selected, next.selected, |st.selected|, t, st.blocked[t.id]);
        DroppedLater(snap, next.selected, |st.selected|, |next.selected|, t, st.blocked[t.id]);
      } else {
        QueuedIsReady(snap, ready, env, st, t);
        DropsAreReasoned(snap, env, st, t);
        DroppedNow(snap, st.selected, t, next.blocked[t.id]);
      }
    }
  }

  // ------------------------------------------------------- no overtaking

  /** a was selected before selection number j, or dropped before it. */
  ghost predicate SettledBefore(snap: Snapshot, st: State, a: Task, j: nat) {
    || (exists i :: 0 <= i < j && i < |st.selected| && st.selected[i] == a)
    || (a.id in st.blocked && DroppedBy(snap, st.selected, j, a, st.blocked[a.id]))
  }

  /** Of two tasks of one project, an admitted one that ranks first is settled first. */
  ghost predicate InTurn(leq: Collation, snap: Snapshot, ready: seq<Task>, st: State) {
    forall j, a :: 0 <= j < |st.selected| && a in ready && ObstacleIn(snap)(a) == None
                   && a.projectId == st.selected[j].projectId && a != st.selected[j]
                   && TaskLeq(leq, a, st.selected[j]) ==>
      SettledBefore(snap, st, a, j)
  }

  lemma SettledStays(env: Setting, snap: Snapshot, ids: set<string>, st: State, a: Task, j: nat)
    requires st.cursor < |env.order| && Partitioned(ids, st) && SettledBefore(snap, st, a, j) && j <= |st.selected|
    ensures SettledBefore(snap, Visit(env, st), a, j)
  {
    hide Visit, KindOf, DroppedBy, Partitioned;
    SelectedGrows(env, st);
    if i :| 0 <= i < j && i < |st.selected| && st.selected[i] == a {
      assert Visit(env, st).selected[i] == a;
    } else {
      BlocksOnlyTheQueue(env, ids, st, a.id);
      DroppedStays(snap, st.selected, Visit(env, st).selected, j, a, st.blocked[a.id]);
    }
  }

  lemma NotBehindItsFollower(leq: Collation, ready: seq<Task>, queue: seq<Task>, a: Task)
    requires TotalOrder(leq) && DistinctTasks(ready) && Ranked(leq, queue) && queue != []
    requires a in ready && forall t :: t in queue ==> t in ready
    requires a != queue[0] && TaskLeq(leq, a, queue[0])
    ensures a !in queue
  {
    ReadyById(ready, a, queue[0]);
    forall i | 0 <= i < |queue| ensures queue[i] != a {
      if i > 0 {
        assert TaskLeq(leq, queue[0], queue[i]);
      }
    }
  }

  lemma ReadyById(tasks: seq<Task>, a: Task, b: Task)
    requires DistinctTasks(tasks) && a in tasks && b in tasks
    ensures a.id == b.id ==> a == b
  {
  }

  /** A task that ranks before the head of its project's queue is in no queue. */
  lemma AheadIsNotQueued(leq: Collation, snap: Snapshot, ready: seq<Task>, env: Setting, st: State, a: Task)
    requires st.cursor < |env.order| && TotalOrder(leq) && DistinctTasks(ready)
    requires Steady(leq, snap, ready, env, st) && HeadQueue(env, st) != []
    requires a in ready && a.projectId == Visited(env, st).id
    requires a != HeadQueue(env, st)[0] && TaskLeq(leq, a, HeadQueue(env, st)[0])
    ensures a.id !in QueuedIds(st.queues)
  {
    hide Obstacle, Counted, ScopesListed, Partitioned, TaskLeq, Ranked, DistinctTasks;
    NotBehindItsFollower(leq, ready, HeadQueue(env, st), a);
    forall p, i | p in st.queues && 0 <= i < |st.queues[p]| ensures st.queues[p][i].id != a.id {
      var t := st.queues[p][i];
      assert t in st.queues[p] && Unobstructed(ObstacleIn(snap), ready, st.queues[p]);
      ReadyById(ready, a, t);
    }
  }

  lemma NotQueuedIsSettled(leq: Collation, snap: Snapshot, ready: seq<Task>, env: Setting, st: State, a: Task)
    requires Fits(snap, ready, env) && Steady(leq, snap, ready, env, st) && Explained(snap, ready, st)
    requires a in ready && ObstacleIn(snap)(a) == None && a.id !in QueuedIds(st.queues)
    ensures SettledBefore(snap, st, a, |st.selected|)
  {
    hide Obstacle, Counted, ScopesListed, DroppedBy, Ranked, TaskLeq;
    var k :| 0 <= k < |ready| && ready[k] == a;
    assert a.id in IdSet(ready);
    if a.id in IdSet(st.selected) {
      var i :| 0 <= i < |st.selected| && st.selected[i].id == a.id;
      assert st.selected[i] in st.selected && st.selected[i] in ready;
    }
  }

  lemma VisitKeepsTurns(leq: Collation, snap: Snapshot, ready: seq<Task>, env: Setting, st: State)
    requires st.cursor < |env.order| && TotalOrder(leq) && Fits(snap, ready, env)
    requires Steady(leq, snap, ready, env, st) && Explained(snap, ready, st) && InTurn(leq, snap, ready, st)
    ensures InTurn(leq, snap, ready, Visit(env, st))
  {
    hide Visit, KindOf, Obstacle, SettledBefore, TaskLeq, Explained, Partitioned, ReasonsStand, Counted, ScopesListed;
    hide Ranked, Refusal, Increment, AddScopes;
    var next := Visit(env, st);
    SelectedGrows(env, st);
    VisitHomogeneous(env, st);
    forall j, a | 0 <= j < |next.selected| && a in ready && ObstacleIn(snap)(a) == None
                  && a.projectId == next.selected[j].projectId && a != next.selected[j]
                  && TaskLeq(leq, a, next.selected[j])
      ensures SettledBefore(snap, next, a, j)
    {
      if j < |st.selected| {
        assert next.selected[j] == st.selected[j];
      } else {
        WhenSelecting(env, st);
        AheadIsNotQueued(leq, snap, ready, env, st, a);
        NotQueuedIsSettled(leq, snap, ready, env, st, a);
      }
      SettledStays(env, snap, IdSet(ready), st, a, j);
    }
  }

  // ------------------------------------------------------- the whole call

  ghost predicate Accounted(leq: Collation, snap: Snapshot, ready: seq<Task>, env: Setting, st: State) {
    Steady(leq, snap, ready, env, st) && Explained(snap, ready, st) && InTurn(leq, snap, ready, st)
  }

  lemma InitialIsSteady(leq: Collation, snap: Snapshot)
    requires TotalOrder(leq) && DistinctTasks(snap.readyTasks)
    ensures Steady(leq, snap, StableOrder(leq, snap.readyTasks), SettingOf(leq, snap), Initial(leq, snap))
  {
    hide Obstacle, Lane, Ranked, TaskLeq, Partitioned, ReasonsStand, Conflict, StableOrder, ObstacleIn;
    var tasks, start := StableOrder(leq, snap.readyTasks), Initial(leq, snap);
    StableOrderFacts(leq, snap.readyTasks);
    InitialPartition(leq, snap);
    InitialReasons(leq, snap);
    InitialLoadIsSafe(leq, snap);
    StableOrderIsRanked(leq, snap.readyTasks);
    forall p | p in start.queues ensures Ranked(leq, start.queues[p]) {
      AdmitQueues(snap, tasks, p);
      LaneIsRanked(leq, ObstacleIn(snap), tasks, p);
    }
    forall id, scopes ensures Listed(scopes, start.scopes, id) <==> Occupied(snap.activeRuns, [], id, scopes) {
      ActiveTableLists(snap.activeRuns, id, scopes);
    }
  }

  lemma InitialIsAccounted(leq: Collation, snap: Snapshot)
    requires TotalOrder(leq) && DistinctTasks(snap.readyTasks)
    ensures Accounted(leq, snap, StableOrder(leq, snap.readyTasks), SettingOf(leq, snap), Initial(leq, snap))
  {
    hide Obstacle, Steady, StableOrder, SettledBefore, DroppedBy, LoadOf, StartingDeficits;
    InitialIsSteady(leq, snap);
    var tasks := StableOrder(leq, snap.readyTasks);
    StableOrderFacts(leq, snap.readyTasks);
    AdmitAll(snap, tasks);
    var admitted := Admit(snap, LoadOf(snap.activeRuns), tasks);
    forall t | t in tasks
      ensures ObstacleIn(snap)(t) == if t.id in admitted.blocked then Some(admitted.blocked[t.id]) else None
    {
      var i :| 0 <= i < |tasks| && tasks[i] == t;
      assert t.id in IdSet(tasks);
      if t.id in QueuedIds(admitted.queues) {
        var p, k :| p in admitted.queues && 0 <= k < |admitted.queues[p]| && admitted.queues[p][k].id == t.id;
        QueuedIsClear(ObstacleIn(snap), tasks, admitted.queues[p], t);
      }
    }
  }

  lemma FinalIsAccounted(leq: Collation, snap: Snapshot)
    requires TotalOrder(leq) && DistinctTasks(snap.readyTasks)
    ensures Accounted(leq, snap, StableOrder(leq, snap.readyTasks), SettingOf(leq, snap), Final(leq, snap))
  {
    hide Run, Visit, Initial, StableOrder, Steady, Explained, InTurn, Continues;
    var env, ready := SettingOf(leq, snap), StableOrder(leq, snap.readyTasks);
    var holds := (s: State) => Accounted(leq, snap, ready, env, s);
    StableOrderFacts(leq, snap.readyTasks);
    InitialIsAccounted(leq, snap);
    InitialPartition(leq, snap);
    forall s | holds(s) && Continues(env, s) && s.cursor < |env.order| ensures holds(Visit(env, s)) {
      VisitIsSteady(leq, snap, ready, env, s);
      VisitExplains(leq, snap, ready, env, s);
      VisitKeepsTurns(leq, snap, ready, env, s);
    }
    RunInduction(env, Initial(leq, snap), holds);
  }

  // -------------------------------------------------------- main results

  function Readiness(t: Task): string {
    if t.readyAt.Some? then t.readyAt.value else ""
  }

  /** Higher priority; among equals earlier readiness, where no time at all is the earliest;
      among equals the smaller identifier. */
  ghost predicate Precedes(leq: Collation, a: Task, b: Task) {
    || a.priority > b.priority
    || (a.priority == b.priority && Readiness(a) != Readiness(b) && leq(Readiness(a), Readiness(b)))
    || (a.priority == b.priority && Readiness(a) == Readiness(b) && leq(a.id, b.id))
  }

  /** The selected identifiers are those of ready tasks, none of them twice. */
  lemma SelectedAreReady(leq: Collation, snap: Snapshot)
    requires TotalOrder(leq) && DistinctTasks(snap.readyTasks)
    ensures var taken, ids := Final(leq, snap).selected, Decide(leq, snap).selectedTaskIds;
            && |ids| == |taken| && DistinctTasks(taken)
            && forall i :: 0 <= i < |ids| ==> ids[i] == taken[i].id && taken[i] in snap.readyTasks
  {
    hide Run, Initial, Obstacle, StableOrder;
    FinalIsAccounted(leq, snap);
    StableOrderFacts(leq, snap.readyTasks);
    var taken := Final(leq, snap).selected;
    forall i | 0 <= i < |taken| ensures taken[i] in snap.readyTasks {
      assert taken[i] in taken;
    }
  }

  /** A project's tasks are taken by priority, then by readiness, then by identifier. */
  lemma TakenInOrder(leq: Collation, snap: Snapshot, a: Task, b: Task, i: nat, j: nat)
    requires TotalOrder(leq) && DistinctTasks(snap.readyTasks)
    requires a in snap.readyTasks && b in snap.readyTasks && a.projectId == b.projectId
    requires i < j < |Decide(leq, snap).selectedTaskIds|
    requires Decide(leq, snap).selectedTaskIds[i] == a.id && Decide(leq, snap).selectedTaskIds[j] == b.id
    ensures Precedes(leq, a, b)
  {
    hide Final, Obstacle, StableOrder, Partitioned, ReasonsStand, Explained, InTurn;
    FinalIsAccounted(leq, snap);
    SelectedAreReady(leq, snap);
    var taken := Final(leq, snap).selected;
    ReadyById(snap.readyTasks, a, taken[i]);
    ReadyById(snap.readyTasks, b, taken[j]);
    assert TaskLeq(leq, taken[i], taken[j]);
  }

  /** Nothing but what already runs stands against t when the call begins. */
  ghost predicate Admissible(snap: Snapshot, t: Task) {
    && !LacksTrust(snap, t) && t.id in snap.routeByTask
    && !ProjectIsFull(snap, [], t) && !RouteIsFull(snap, [], t) && !Collides(snap, [], t)
  }

  /** Why a task is not even queued: its project, its route, a limit, a conflict, in this order. */
  lemma ObstacleByCounts(leq: Collation, snap: Snapshot, t: Task)
    ensures ObstacleIn(snap)(t)
         == if LacksTrust(snap, t) then Some(BlockedTrust)
            else if t.id !in snap.routeByTask then Some(BlockedRoute)
            else if ProjectIsFull(snap, [], t) || RouteIsFull(snap, [], t) then Some(BlockedConcurrency)
            else if Collides(snap, [], t) then Some(BlockedConflict)
            else None
  {
    hide Count, Tally, Clashes, Collides, Listed, Occupied, Admit, StableOrder, ProjectById, IsTrusted;
    TrustIsOfTheLast(snap.projects, t.projectId);
    var env, start := SettingOf(leq, snap), Initial(leq, snap);
    InitialLoadIsSafe(leq, snap);
    CountsAreCounts(env, snap.activeRuns, start);
    forall id, scopes ensures Listed(scopes, start.scopes, id) <==> Occupied(snap.activeRuns, [], id, scopes) {
      ActiveTableLists(snap.activeRuns, id, scopes);
    }
    ClashIsCollision(snap, start, t);
  }

  /** No overtaking: when b is taken, an admissible task of its project that precedes b has been
      taken before, or has been dropped for the reason that stood against it at some moment
      before; it is never still waiting. */
  lemma NoOvertaking(leq: Collation, snap: Snapshot, a: Task, b: Task, j: nat)
    requires TotalOrder(leq) && DistinctTasks(snap.readyTasks)
    requires a in snap.readyTasks && b in snap.readyTasks && a.projectId == b.projectId && a != b
    requires j < |Decide(leq, snap).selectedTaskIds| && Decide(leq, snap).selectedTaskIds[j] == b.id
    requires Admissible(snap, a) && Precedes(leq, a, b)
    ensures var d := Decide(leq, snap);
            || a.id in d.selectedTaskIds[..j]
            || (a.id in d.blocked && DroppedBy(snap, Final(leq, snap).selected, j, a, d.blocked[a.id]))
  {
    hide Final, Obstacle, StableOrder, Steady, Explained, DroppedBy, ProjectIsFull, RouteIsFull, Collides, LacksTrust;
    FinalIsAccounted(leq, snap);
    SelectedAreReady(leq, snap);
    StableOrderFacts(leq, snap.readyTasks);
    ObstacleByCounts(leq, snap, a);
    var end := Final(leq, snap);
    ReadyById(snap.readyTasks, b, end.selected[j]);
    assert SettledBefore(snap, end, a, j);
    if i :| 0 <= i < j && i < |end.selected| && end.selected[i] == a {
      assert Decide(leq, snap).selectedTaskIds[..j][i] == a.id;
    }
  }

  /** The reason given to every task of a trusted project that has a route. What runs already
      decides first: a limit, then a conflict. Otherwise the task was dropped when its turn came,
      for what stood against it just then, or it was still waiting when the loop ended. */
  lemma WhyBlocked(leq: Collation, snap: Snapshot, t: Task)
    requires TotalOrder(leq) && DistinctTasks(snap.readyTasks) && t in snap.readyTasks
    requires !LacksTrust(snap, t) && t.id in snap.routeByTask
    ensures var blocked, end := Decide(leq, snap).blocked, Final(leq, snap);
            if ProjectIsFull(snap, [], t) || RouteIsFull(snap, [], t) then
              t.id in blocked && blocked[t.id] == BlockedConcurrency
            else if Collides(snap, [], t) then
              t.id in blocked && blocked[t.id] == BlockedConflict
            else t.id in blocked ==>
              || DroppedBy(snap, end.selected, |end.selected|, t, blocked[t.id])
              || (t.id in QueuedIds(end.queues) && blocked[t.id] == BlockedConcurrency)
  {
    hide Final, Obstacle, StableOrder, Steady, InTurn, DroppedBy, ProjectIsFull, RouteIsFull, Collides, LacksTrust;
    FinalIsAccounted(leq, snap);
    StableOrderFacts(leq, snap.readyTasks);
    ObstacleByCounts(leq, snap, t);
  }
}
