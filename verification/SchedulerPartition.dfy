/** What becomes of every ready task: it is selected or blocked, never both, in the stable
    order of its project, and independently of the order in which the tasks are listed. */
module SchedulerPartition {
  import opened Orders
  import opened Scheduler
  import opened SchedulerRuns
  import opened SchedulerSafety
  import opened Wrappers

  function IdSet(tasks: seq<Task>): set<string> {
    set i | 0 <= i < |tasks| :: tasks[i].id
  }

  ghost predicate DistinctTasks(tasks: seq<Task>) {
    forall i, j :: 0 <= i < j < |tasks| ==> tasks[i].id != tasks[j].id
  }

  /** No identifier is queued twice. */
  ghost predicate DistinctQueues(queues: Queues) {
    forall p, i, q, j ::
      (p in queues && 0 <= i < |queues[p]| && q in queues && 0 <= j < |queues[q]| && queues[p][i].id == queues[q][j].id)
      ==> p == q && i == j
  }

  lemma IdSetSnoc(tasks: seq<Task>, t: Task)
    ensures IdSet(tasks + [t]) == IdSet(tasks) + {t.id}
  {
    var all := tasks + [t];
    forall id | id in IdSet(tasks) + {t.id} ensures id in IdSet(all) {
      if id == t.id {
        assert all[|tasks|].id == id;
      } else {
        var i :| 0 <= i < |tasks| && tasks[i].id == id;
        assert all[i].id == id;
      }
    }
  }

  lemma DistinctSnoc(tasks: seq<Task>, t: Task)
    requires DistinctTasks(tasks) && t.id !in IdSet(tasks)
    ensures DistinctTasks(tasks + [t])
  {
  }

  // ------------------------------------------------------------- queues

  lemma DropFront(queues: Queues, p: string)
    requires DistinctQueues(queues) && p in queues && queues[p] != []
    ensures DistinctQueues(queues[p := queues[p][1..]])
    ensures queues[p][0].id in QueuedIds(queues)
    ensures QueuedIds(queues[p := queues[p][1..]]) == QueuedIds(queues) - {queues[p][0].id}
  {
    var queue, queues' := queues[p], queues[p := queues[p][1..]];
    forall id | id in QueuedIds(queues) && id != queue[0].id ensures id in QueuedIds(queues') {
      var q, i :| q in queues && 0 <= i < |queues[q]| && queues[q][i].id == id;
      if q == p {
        assert queues'[p][i-1].id == id;
      } else {
        assert queues'[q][i].id == id;
      }
    }
    forall id | id in QueuedIds(queues') ensures id in QueuedIds(queues) && id != queue[0].id {
      var q, i :| q in queues' && 0 <= i < |queues'[q]| && queues'[q][i].id == id;
      if q == p {
        assert queues'[p][i] == queue[i+1];
      } else {
        assert queues'[q] == queues[q];
      }
    }
  }

  lemma DropAll(queues: Queues, p: string)
    requires DistinctQueues(queues) && p in queues
    ensures DistinctQueues(queues[p := []])
    ensures IdSet(queues[p]) <= QueuedIds(queues)
    ensures QueuedIds(queues[p := []]) == QueuedIds(queues) - IdSet(queues[p])
  {
    var queues' := queues[p := []];
    forall id | id in QueuedIds(queues) && id !in IdSet(queues[p]) ensures id in QueuedIds(queues') {
      var q, i :| q in queues && 0 <= i < |queues[q]| && queues[q][i].id == id;
      assert q != p;
      assert queues'[q][i].id == id;
    }
    forall id | id in QueuedIds(queues') ensures id in QueuedIds(queues) && id !in IdSet(queues[p]) {
      var q, i :| q in queues' && 0 <= i < |queues'[q]| && queues'[q][i].id == id;
      assert queues'[q] == queues[q];
    }
  }

  lemma {:induction false} BlockKeys(blocked: map<string, BlockReason>, tasks: seq<Task>, reason: BlockReason)
    ensures var b := Block(blocked, tasks, reason);
            && b.Keys == blocked.Keys + IdSet(tasks)
            && forall id :: id in b ==> b[id] == if id in IdSet(tasks) then reason else blocked[id]
  {
    if tasks == [] {
    } else {
      BlockKeys(blocked, tasks[..|tasks|-1], reason);
      assert IdSet(tasks) == IdSet(tasks[..|tasks|-1]) + {tasks[|tasks|-1].id};
    }
  }

  // ---------------------------------------------------------- partition

  /** Queued, selected and blocked tasks together are all of ids, without overlap. */
  ghost predicate Partitioned(ids: set<string>, st: State) {
    && DistinctQueues(st.queues)
    && DistinctTasks(st.selected)
    && QueuedIds(st.queues) + IdSet(st.selected) + st.blocked.Keys == ids
    && QueuedIds(st.queues) !! IdSet(st.selected) !! st.blocked.Keys
  }

  lemma SelectingKeepsPartition(env: Setting, ids: set<string>, st: State)
    requires st.cursor < |env.order| && KindOf(env, st) == Selects && Partitioned(ids, st)
    ensures Partitioned(ids, Visit(env, st))
  {
    var queue := HeadQueue(env, st);
    QueuesAfter(env, st, Selects);
    WhenSelecting(env, st);
    DropFront(st.queues, Visited(env, st).id);
    IdSetSnoc(st.selected, queue[0]);
    DistinctSnoc(st.selected, queue[0]);
  }

  lemma PassingKeepsPartition(env: Setting, ids: set<string>, st: State, kind: Kind)
    requires st.cursor < |env.order| && KindOf(env, st) == kind != Selects && Partitioned(ids, st)
    ensures Partitioned(ids, Visit(env, st))
  {
    QueuesAfter(env, st, kind);
    BlockedAfter(env, st, kind);
    WhenPassing(env, st);
    if kind == Full {
      DropAll(st.queues, Visited(env, st).id);
      BlockKeys(st.blocked, HeadQueue(env, st), BlockedConcurrency);
    } else if kind.Refused? {
      DropFront(st.queues, Visited(env, st).id);
    }
  }

  lemma VisitKeepsPartition(env: Setting, ids: set<string>, st: State)
    requires st.cursor < |env.order| && Partitioned(ids, st)
    ensures Partitioned(ids, Visit(env, st))
  {
    if KindOf(env, st) == Selects {
      SelectingKeepsPartition(env, ids, st);
    } else {
      PassingKeepsPartition(env, ids, st, KindOf(env, st));
    }
  }

  // ------------------------------------------------------ reasons given

  /** The reason given agrees with the obstacle to admission where that is trust or route. */
  ghost predicate Agrees(obstacle: Option<BlockReason>, reason: BlockReason) {
    && (reason == BlockedTrust <==> obstacle == Some(BlockedTrust))
    && (reason == BlockedRoute <==> obstacle == Some(BlockedRoute))
  }

  ghost predicate Unobstructed(obstacle: Task -> Option<BlockReason>, ready: seq<Task>, queue: seq<Task>) {
    forall t :: t in queue ==> t in ready && obstacle(t) == None
  }

  /** Queued and selected tasks have no obstacle, and every blocked task has a reason that agrees with its own. */
  ghost predicate ReasonsStand(obstacle: Task -> Option<BlockReason>, ready: seq<Task>, st: State) {
    && (forall p :: p in st.queues ==> Unobstructed(obstacle, ready, st.queues[p]))
    && Unobstructed(obstacle, ready, st.selected)
    && (forall t :: t in ready && t.id in st.blocked ==> Agrees(obstacle(t), st.blocked[t.id]))
  }

  lemma QueuedIsClear(obstacle: Task -> Option<BlockReason>, ready: seq<Task>, queue: seq<Task>, t: Task)
    requires DistinctTasks(ready) && Unobstructed(obstacle, ready, queue) && t in ready && t.id in IdSet(queue)
    ensures obstacle(t) == None
  {
    var i :| 0 <= i < |queue| && queue[i].id == t.id;
    assert queue[i] in queue;
    assert queue[i] == t;
  }

  lemma RefusalIsNotSettled(env: Setting, st: State, t: Task, reason: BlockReason)
    requires Refusal(env, st, t) == Some(reason) && t.id in env.routeByTask
    ensures reason == BlockedConflict || reason == BlockedConcurrency
  {
  }

  lemma VisitKeepsReasons(env: Setting, obstacle: Task -> Option<BlockReason>, ready: seq<Task>, st: State, kind: Kind)
    requires st.cursor < |env.order| && KindOf(env, st) == kind && DistinctTasks(ready)
    requires forall t :: obstacle(t) == None ==> t.id in env.routeByTask
    requires ReasonsStand(obstacle, ready, st)
    ensures ReasonsStand(obstacle, ready, Visit(env, st))
  {
    var queue, next := HeadQueue(env, st), Visit(env, st);
    QueuesAfter(env, st, kind);
    BlockedAfter(env, st, kind);
    assert Unobstructed(obstacle, ready, queue);
    assert queue != [] ==> queue[0] in queue && forall t :: t in queue[1..] ==> t in queue;
    assert Unobstructed(obstacle, ready, QueueAfter(env, st));
    if kind == Selects {
      WhenSelecting(env, st);
    } else {
      WhenPassing(env, st);
    }
    if kind == Full {
      BlockKeys(st.blocked, queue, BlockedConcurrency);
      forall t | t in ready && t.id in next.blocked ensures Agrees(obstacle(t), next.blocked[t.id]) {
        if t.id in IdSet(queue) {
          QueuedIsClear(obstacle, ready, queue, t);
        }
      }
    } else if kind.Refused? {
      RefusedReason(env, st, kind.reason);
      forall t | t in ready && t.id in next.blocked ensures Agrees(obstacle(t), next.blocked[t.id]) {
        if t.id == queue[0].id {
          QueuedIsClear(obstacle, ready, queue, t);
        }
      }
    }
  }

  lemma RefusedReason(env: Setting, st: State, reason: BlockReason)
    requires st.cursor < |env.order| && KindOf(env, st) == Refused(reason) && HeadQueue(env, st) != []
    requires HeadQueue(env, st)[0].id in env.routeByTask
    ensures reason == BlockedConflict || reason == BlockedConcurrency
  {
    RefusalIsNotSettled(env, st, HeadQueue(env, st)[0], reason);
  }

  // ------------------------------------------------------ initial state

  /** The admissible tasks of one project, in the order of tasks. */
  ghost function Lane(obstacle: Task -> Option<BlockReason>, tasks: seq<Task>, p: string): seq<Task> {
    if tasks == [] then []
    else
      var t := tasks[|tasks|-1];
      Lane(obstacle, tasks[..|tasks|-1], p) + if t.projectId == p && obstacle(t) == None then [t] else []
  }

  ghost function ObstacleIn(snap: Snapshot): Task -> Option<BlockReason> {
    var load := LoadOf(snap.activeRuns);
    t => Obstacle(snap, load, t)
  }

  lemma {:induction false} AdmitQueues(snap: Snapshot, tasks: seq<Task>, p: string)
    ensures QueueOf(Admit(snap, LoadOf(snap.activeRuns), tasks).queues, p) == Lane(ObstacleIn(snap), tasks, p)
  {
    if tasks == [] {
    } else {
      AdmitQueues(snap, tasks[..|tasks|-1], p);
    }
  }

  /** Admission queues or blocks each task, under its own reason. */
  ghost predicate Admitted(obstacle: Task -> Option<BlockReason>, tasks: seq<Task>, a: Admission) {
    && DistinctQueues(a.queues)
    && QueuedIds(a.queues) + a.blocked.Keys == IdSet(tasks)
    && QueuedIds(a.queues) !! a.blocked.Keys
    && (forall p :: p in a.queues ==> Unobstructed(obstacle, tasks, a.queues[p]))
    && (forall i :: 0 <= i < |tasks| && tasks[i].id in a.blocked ==> obstacle(tasks[i]) == Some(a.blocked[tasks[i].id]))
  }

  /** One more task without an obstacle goes to the end of its project's queue. */
  lemma AdmitClear(snap: Snapshot, load: Load, tasks: seq<Task>, t: Task)
    requires Obstacle(snap, load, t) == None
    ensures var before := Admit(snap, load, tasks);
            Admit(snap, load, tasks + [t])
            == before.(queues := before.queues[t.projectId := QueueOf(before.queues, t.projectId) + [t]])
  {
    hide Obstacle;
    assert (tasks + [t])[..|tasks|] == tasks;
  }

  lemma AppendToQueue(queues: Queues, t: Task, p: string)
    requires DistinctQueues(queues) && t.id !in QueuedIds(queues)
    ensures DistinctQueues(queues[p := QueueOf(queues, p) + [t]])
    ensures QueuedIds(queues[p := QueueOf(queues, p) + [t]]) == QueuedIds(queues) + {t.id}
  {
    var queues' := queues[p := QueueOf(queues, p) + [t]];
    forall id | id in QueuedIds(queues) + {t.id} ensures id in QueuedIds(queues') {
      if id == t.id {
        assert queues'[p][|QueueOf(queues, p)|].id == id;
      } else {
        var q, i :| q in queues && 0 <= i < |queues[q]| && queues[q][i].id == id;
        assert queues'[q][i].id == id;
      }
    }
    forall q, i | q in queues' && 0 <= i < |queues'[q]|
      ensures queues'[q][i].id in QueuedIds(queues) || (q == p && i == |queues'[p]| - 1)
    {
      if q != p || i < |queues'[p]| - 1 {
        assert q in queues && queues[q][i] == queues'[q][i];
      }
    }
  }

  lemma AdmitOneTask(obstacle: Task -> Option<BlockReason>, tasks: seq<Task>, t: Task, a: Admission, a': Admission)
    requires DistinctTasks(tasks + [t]) && Admitted(obstacle, tasks, a)
    requires a' == match obstacle(t) {
               case Some(reason) => a.(blocked := a.blocked[t.id := reason])
               case None => a.(queues := a.queues[t.projectId := QueueOf(a.queues, t.projectId) + [t]]) }
    ensures Admitted(obstacle, tasks + [t], a')
  {
    var all := tasks + [t];
    IdSetSnoc(tasks, t);
    assert forall i :: 0 <= i < |tasks| ==> tasks[i] == all[i] && all[i].id != all[|tasks|].id;
    assert t.id !in IdSet(tasks);
    if obstacle(t) == None {
      AppendToQueue(a.queues, t, t.projectId);
    }
    forall p | p in a'.queues ensures Unobstructed(obstacle, all, a'.queues[p]) {
      assert Unobstructed(obstacle, tasks, QueueOf(a.queues, p));
      assert forall u :: u in a'.queues[p] ==> u in QueueOf(a.queues, p) || (u == t && obstacle(t) == None);
    }
    forall i | 0 <= i < |all| && all[i].id in a'.blocked ensures obstacle(all[i]) == Some(a'.blocked[all[i].id]) {
      assert i < |tasks| ==> tasks[i].id in IdSet(tasks);
    }
  }

  lemma {:induction false} AdmitAll(snap: Snapshot, tasks: seq<Task>)
    requires DistinctTasks(tasks)
    ensures Admitted(ObstacleIn(snap), tasks, Admit(snap, LoadOf(snap.activeRuns), tasks))
  {
    if tasks == [] {
    } else {
      var init, t := tasks[..|tasks|-1], tasks[|tasks|-1];
      AdmitAll(snap, init);
      assert tasks == init + [t];
      AdmitOneTask(ObstacleIn(snap), init, t, Admit(snap, LoadOf(snap.activeRuns), init),
                   Admit(snap, LoadOf(snap.activeRuns), tasks));
    }
  }

  // ------------------------------------------------------- subsequences

  /** f picks, in ascending order, the positions of b that spell a. */
  ghost predicate Embeds(f: seq<nat>, a: seq<Task>, b: seq<Task>) {
    && |f| == |a|
    && (forall i :: 0 <= i < |f| ==> f[i] < |b| && b[f[i]] == a[i])
    && (forall i, j :: 0 <= i < j < |f| ==> f[i] < f[j])
  }

  ghost predicate Subsequence(a: seq<Task>, b: seq<Task>) {
    exists f :: Embeds(f, a, b)
  }

  lemma SubsequenceOfItself(a: seq<Task>)
    ensures Subsequence(a, a)
  {
    assert Embeds(seq(|a|, i => i), a, a);
  }

  lemma SubsequenceTransitive(a: seq<Task>, b: seq<Task>, c: seq<Task>)
    requires Subsequence(a, b) && Subsequence(b, c)
    ensures Subsequence(a, c)
  {
    var f :| Embeds(f, a, b);
    var g :| Embeds(g, b, c);
    assert Embeds(seq(|f|, i requires 0 <= i < |f| => g[f[i]]), a, c);
  }

  /** Leaving out the middle of x + y + z. */
  lemma SubsequenceWithout(x: seq<Task>, y: seq<Task>, z: seq<Task>, b: seq<Task>)
    requires Subsequence(x + y + z, b)
    ensures Subsequence(x + z, b)
  {
    var f :| Embeds(f, x + y + z, b);
    var g := f[..|x|] + f[|x| + |y|..];
    forall i | 0 <= i < |g| ensures g[i] < |b| && b[g[i]] == (x + z)[i] {
      if i >= |x| {
        assert (x + y + z)[i + |y|] == z[i - |x|];
      }
    }
    assert Embeds(g, x + z, b);
  }

  lemma {:induction false} LaneIsSubsequence(obstacle: Task -> Option<BlockReason>, tasks: seq<Task>, p: string)
    ensures Subsequence(Lane(obstacle, tasks, p), tasks)
  {
    if tasks == [] {
      SubsequenceOfItself([]);
    } else {
      var init, last := tasks[..|tasks|-1], |tasks|-1;
      LaneIsSubsequence(obstacle, init, p);
      var f :| Embeds(f, Lane(obstacle, init, p), init);
      if tasks[last].projectId == p && obstacle(tasks[last]) == None {
        assert Embeds(f + [last], Lane(obstacle, tasks, p), tasks);
      } else {
        assert Embeds(f, Lane(obstacle, tasks, p), tasks);
      }
    }
  }

  /** The selected tasks of one project. */
  function SelectedOf(selected: seq<Task>, p: string): seq<Task> {
    if selected == [] then []
    else SelectedOf(selected[..|selected|-1], p)
         + if selected[|selected|-1].projectId == p then [selected[|selected|-1]] else []
  }

  /** What project p has selected and still queues keeps the order of its lane. */
  ghost predicate InOrder(lane: seq<Task>, p: string, st: State) {
    Homogeneous(st.queues) && Subsequence(SelectedOf(st.selected, p) + QueueOf(st.queues, p), lane)
  }

  lemma SelectedOfSnoc(selected: seq<Task>, t: Task, p: string)
    ensures SelectedOf(selected + [t], p) == SelectedOf(selected, p) + if t.projectId == p then [t] else []
  {
    assert (selected + [t])[..|selected|] == selected;
  }

  lemma SelectingKeepsOrder(env: Setting, lane: seq<Task>, p: string, st: State)
    requires st.cursor < |env.order| && KindOf(env, st) == Selects && InOrder(lane, p, st)
    ensures InOrder(lane, p, Visit(env, st))
  {
    hide Visit, KindOf, Subsequence, Refusal, Increment, AddScopes;
    var id, queue := Visited(env, st).id, HeadQueue(env, st);
    VisitHomogeneous(env, st);
    QueuesAfter(env, st, Selects);
    assert queue != [] && queue[0].projectId == id;
    hide Homogeneous, SelectedOf;
    WhenSelecting(env, st);
    SelectedOfSnoc(st.selected, queue[0], p);
    MoveAcross(SelectedOf(st.selected, p), queue);
  }

  lemma MoveAcross(mine: seq<Task>, queue: seq<Task>)
    requires queue != []
    ensures mine + [queue[0]] + queue[1..] == mine + queue && mine + [] == mine
  {
  }

  lemma PassingKeepsOrder(env: Setting, lane: seq<Task>, p: string, st: State, kind: Kind)
    requires st.cursor < |env.order| && KindOf(env, st) == kind != Selects && InOrder(lane, p, st)
    ensures InOrder(lane, p, Visit(env, st))
  {
    var queue, mine := HeadQueue(env, st), SelectedOf(st.selected, p);
    QueuesAfter(env, st, kind);
    VisitHomogeneous(env, st);
    WhenPassing(env, st);
    if p == Visited(env, st).id && kind != Vacant {
      if kind == Full {
        assert mine + queue + [] == mine + queue;
        SubsequenceWithout(mine, queue, [], lane);
      } else if kind.Refused? {
        assert mine + queue[..1] + queue[1..] == mine + queue;
        SubsequenceWithout(mine, queue[..1], queue[1..], lane);
      }
    }
  }

  lemma VisitKeepsOrder(env: Setting, lane: seq<Task>, p: string, st: State)
    requires st.cursor < |env.order| && InOrder(lane, p, st)
    ensures InOrder(lane, p, Visit(env, st))
  {
    if KindOf(env, st) == Selects {
      SelectingKeepsOrder(env, lane, p, st);
    } else {
      PassingKeepsOrder(env, lane, p, st, KindOf(env, st));
    }
  }

  // -------------------------------------------------------- main results

  lemma StableOrderFacts(leq: Collation, tasks: seq<Task>)
    requires DistinctTasks(tasks)
    ensures DistinctTasks(StableOrder(leq, tasks)) && IdSet(StableOrder(leq, tasks)) == IdSet(tasks)
    ensures forall t :: t in StableOrder(leq, tasks) <==> t in tasks
  {
    var le := (a, b) => TaskLeq(leq, a, b);
    var sorted := Sort(tasks, le);
    SortPermutes(tasks, le);
    forall t ensures t in sorted <==> t in tasks {
      SortMembers(tasks, le, t);
    }
    assert NoDup(tasks);
    NoDupFromMultiset(tasks, sorted);
    forall i, j | 0 <= i < j < |sorted| ensures sorted[i].id != sorted[j].id {
      assert sorted[i] in tasks && sorted[j] in tasks && sorted[i] != sorted[j];
    }
    forall id | id in IdSet(tasks) ensures id in IdSet(sorted) {
      var i :| 0 <= i < |tasks| && tasks[i].id == id;
      assert tasks[i] in sorted;
    }
    forall id | id in IdSet(sorted) ensures id in IdSet(tasks) {
      var i :| 0 <= i < |sorted| && sorted[i].id == id;
      assert sorted[i] in tasks;
    }
  }

  lemma InitialPartition(leq: Collation, snap: Snapshot)
    requires DistinctTasks(StableOrder(leq, snap.readyTasks))
    ensures Partitioned(IdSet(StableOrder(leq, snap.readyTasks)), Initial(leq, snap))
    ensures InRange(SettingOf(leq, snap), Initial(leq, snap))
  {
    AdmitAll(snap, StableOrder(leq, snap.readyTasks));
  }

  lemma FinalPartition(leq: Collation, snap: Snapshot)
    requires DistinctTasks(snap.readyTasks)
    ensures Partitioned(IdSet(snap.readyTasks), Final(leq, snap))
  {
    hide Partitioned, StableOrder, Run, Visit, Initial;
    var env, tasks := SettingOf(leq, snap), StableOrder(leq, snap.readyTasks);
    var holds := (s: State) => Partitioned(IdSet(tasks), s);
    StableOrderFacts(leq, snap.readyTasks);
    InitialPartition(leq, snap);
    forall s | holds(s) && Continues(env, s) && s.cursor < |env.order| ensures holds(Visit(env, s)) {
      VisitKeepsPartition(env, IdSet(tasks), s);
    }
    RunInduction(env, Initial(leq, snap), holds);
  }

  lemma InitialReasons(leq: Collation, snap: Snapshot)
    requires DistinctTasks(snap.readyTasks)
    ensures ReasonsStand(ObstacleIn(snap), StableOrder(leq, snap.readyTasks), Initial(leq, snap))
  {
    var tasks := StableOrder(leq, snap.readyTasks);
    StableOrderFacts(leq, snap.readyTasks);
    AdmitAll(snap, tasks);
    var obstacle, start := ObstacleIn(snap), Initial(leq, snap);
    forall t | t in tasks && t.id in start.blocked ensures Agrees(obstacle(t), start.blocked[t.id]) {
      var i :| 0 <= i < |tasks| && tasks[i] == t;
    }
  }

  lemma FinalReasons(leq: Collation, snap: Snapshot)
    requires DistinctTasks(snap.readyTasks)
    ensures ReasonsStand(ObstacleIn(snap), StableOrder(leq, snap.readyTasks), Final(leq, snap))
  {
    var env, tasks := SettingOf(leq, snap), StableOrder(leq, snap.readyTasks);
    var holds := (s: State) => ReasonsStand(ObstacleIn(snap), tasks, s);
    StableOrderFacts(leq, snap.readyTasks);
    InitialReasons(leq, snap);
    forall s | holds(s) && Continues(env, s) && s.cursor < |env.order| ensures holds(Visit(env, s)) {
      VisitKeepsReasons(env, ObstacleIn(snap), tasks, s, KindOf(env, s));
    }
    RunInduction(env, Initial(leq, snap), holds);
  }

  lemma TaskIdsAreIds(tasks: seq<Task>)
    ensures forall id :: id in TaskIds(tasks) <==> id in IdSet(tasks)
    ensures DistinctTasks(tasks) ==> NoDup(TaskIds(tasks))
  {
    forall id | id in IdSet(tasks) ensures id in TaskIds(tasks) {
      var i :| 0 <= i < |tasks| && tasks[i].id == id;
      assert TaskIds(tasks)[i] == id;
    }
  }

  /** Every ready task is either selected, once, or blocked with one reason; nothing else is. */
  lemma EveryTaskIsDecided(leq: Collation, snap: Snapshot)
    requires DistinctTasks(snap.readyTasks)
    ensures var d := Decide(leq, snap);
            && NoDup(d.selectedTaskIds)
            && (forall t :: t in snap.readyTasks ==> (t.id in d.selectedTaskIds <==> t.id !in d.blocked))
            && (forall id :: id in d.selectedTaskIds || id in d.blocked ==> id in IdSet(snap.readyTasks))
  {
    FinalPartition(leq, snap);
    TaskIdsAreIds(Final(leq, snap).selected);
    forall t | t in snap.readyTasks ensures t.id in IdSet(snap.readyTasks) {
      var i :| 0 <= i < |snap.readyTasks| && snap.readyTasks[i] == t;
    }
  }

  /** The last entry for this project, if there is one, is trusted. */
  ghost predicate IsTrusted(projects: seq<Project>, id: string) {
    exists i :: 0 <= i < |projects| && projects[i].id == id && projects[i].trustState == Trusted
                && forall j :: i < j < |projects| ==> projects[j].id != id
  }

  lemma {:induction false} TrustIsOfTheLast(projects: seq<Project>, id: string)
    ensures IsTrusted(projects, id)
            <==> ProjectById(projects, id).Some? && ProjectById(projects, id).value.trustState == Trusted
  {
    if projects == [] {
    } else {
      var init, last := projects[..|projects|-1], |projects| - 1;
      TrustIsOfTheLast(init, id);
      if projects[last].id != id {
        if i :| 0 <= i < |init| && init[i].id == id && init[i].trustState == Trusted
                && forall j :: i < j < |init| ==> init[j].id != id {
          assert projects[i].id == id;
        }
        if i :| 0 <= i < |projects| && projects[i].id == id && projects[i].trustState == Trusted
                && forall j :: i < j < |projects| ==> projects[j].id != id {
          assert init[i].id == id;
        }
      }
    }
  }

  ghost predicate LacksTrust(snap: Snapshot, t: Task) {
    !IsTrusted(snap.projects, t.projectId)
  }

  lemma ObstacleMeaning(snap: Snapshot, t: Task)
    ensures ObstacleIn(snap)(t) == Some(BlockedTrust) <==> LacksTrust(snap, t)
    ensures ObstacleIn(snap)(t) == Some(BlockedRoute) <==> !LacksTrust(snap, t) && t.id !in snap.routeByTask
  {
    hide IsTrusted;
    TrustIsOfTheLast(snap.projects, t.projectId);
  }

  lemma QueuedIdsAreClear(obstacle: Task -> Option<BlockReason>, ready: seq<Task>, st: State, t: Task)
    requires DistinctTasks(ready) && ReasonsStand(obstacle, ready, st) && t in ready
    requires t.id in QueuedIds(st.queues) || t.id in IdSet(st.selected)
    ensures obstacle(t) == None
  {
    if t.id in IdSet(st.selected) {
      QueuedIsClear(obstacle, ready, st.selected, t);
    } else {
      var p, i :| p in st.queues && 0 <= i < |st.queues[p]| && st.queues[p][i].id == t.id;
      QueuedIsClear(obstacle, ready, st.queues[p], t);
    }
  }

  /** The reasons trust and route are given exactly to the tasks they describe. */
  lemma TrustAndRouteReasons(leq: Collation, snap: Snapshot, t: Task)
    requires DistinctTasks(snap.readyTasks) && t in snap.readyTasks
    ensures var blocked := Decide(leq, snap).blocked;
            && (t.id in blocked && blocked[t.id] == BlockedTrust <==> LacksTrust(snap, t))
            && (t.id in blocked && blocked[t.id] == BlockedRoute <==> !LacksTrust(snap, t) && t.id !in snap.routeByTask)
  {
    var end, ready := Final(leq, snap), StableOrder(leq, snap.readyTasks);
    StableOrderFacts(leq, snap.readyTasks);
    FinalPartition(leq, snap);
    FinalReasons(leq, snap);
    ObstacleMeaning(snap, t);
    assert t.id in IdSet(snap.readyTasks) by {
      var i :| 0 <= i < |snap.readyTasks| && snap.readyTasks[i] == t;
    }
    if t.id !in end.blocked {
      QueuedIdsAreClear(ObstacleIn(snap), ready, end, t);
    }
  }

  /** Each project's selected tasks follow the stable order of the ready tasks. */
  lemma SelectionFollowsStableOrder(leq: Collation, snap: Snapshot, p: string)
    ensures Subsequence(SelectedOf(Final(leq, snap).selected, p), StableOrder(leq, snap.readyTasks))
  {
    hide Run, Visit, StableOrder, Lane, Subsequence, Continues;
    var env, tasks, end := SettingOf(leq, snap), StableOrder(leq, snap.readyTasks), Final(leq, snap);
    var lane := Lane(ObstacleIn(snap), tasks, p);
    var holds := (s: State) => InOrder(lane, p, s);
    AdmitHomogeneous(snap, LoadOf(snap.activeRuns), tasks);
    AdmitQueues(snap, tasks, p);
    SubsequenceOfItself(lane);
    assert [] + lane == lane;
    forall s | holds(s) && Continues(env, s) && s.cursor < |env.order| ensures holds(Visit(env, s)) {
      VisitKeepsOrder(env, lane, p, s);
    }
    RunInduction(env, Initial(leq, snap), holds);
    var mine, queue := SelectedOf(end.selected, p), QueueOf(end.queues, p);
    assert mine + queue + [] == mine + queue;
    SubsequenceWithout(mine, queue, [], lane);
    assert mine + [] == mine;
    LaneIsSubsequence(ObstacleIn(snap), tasks, p);
    SubsequenceTransitive(mine, lane, tasks);
  }

  // ---------------------------------------------- order of the input lists

  ghost predicate DistinctProjects(projects: seq<Project>) {
    forall i, j :: 0 <= i < j < |projects| ==> projects[i].id != projects[j].id
  }

  lemma TaskOrderIsTotal(leq: Collation)
    requires TotalOrder(leq)
    ensures Total((a, b) => TaskLeq(leq, a, b))
  {
  }

  lemma {:induction false} ProjectByIdFinds(projects: seq<Project>, id: string)
    ensures ProjectById(projects, id) == None ==> forall p :: p in projects ==> p.id != id
    ensures ProjectById(projects, id).Some? ==>
              ProjectById(projects, id).value in projects && ProjectById(projects, id).value.id == id
  {
    if projects == [] {
    } else {
      ProjectByIdFinds(projects[..|projects|-1], id);
      assert projects == projects[..|projects|-1] + [projects[|projects|-1]];
    }
  }

  lemma SameProjectById(a: seq<Project>, b: seq<Project>, id: string)
    requires DistinctProjects(a) && forall p :: p in a <==> p in b
    ensures ProjectById(a, id) == ProjectById(b, id)
  {
    ProjectByIdFinds(a, id);
    ProjectByIdFinds(b, id);
  }

  lemma {:induction false} AdmitSame(a: Snapshot, b: Snapshot, load: Load, tasks: seq<Task>)
    requires forall t :: Obstacle(a, load, t) == Obstacle(b, load, t)
    ensures Admit(a, load, tasks) == Admit(b, load, tasks)
  {
    if tasks == [] {
    } else {
      AdmitSame(a, b, load, tasks[..|tasks|-1]);
      assert Obstacle(a, load, tasks[|tasks|-1]) == Obstacle(b, load, tasks[|tasks|-1]);
    }
  }

  lemma StableOrderForgets(leq: Collation, a: seq<Task>, b: seq<Task>)
    requires TotalOrder(leq) && DistinctTasks(a) && multiset(a) == multiset(b)
    ensures StableOrder(leq, a) == StableOrder(leq, b)
  {
    TaskOrderIsTotal(leq);
    SortForgetsOrder(a, b, (x, y) => TaskLeq(leq, x, y));
  }

  lemma ProjectOrderForgets(leq: Collation, a: seq<Project>, b: seq<Project>)
    requires TotalOrder(leq) && DistinctProjects(a) && multiset(a) == multiset(b)
    ensures ProjectOrder(leq, a) == ProjectOrder(leq, b)
    ensures forall p :: p in a <==> p in b
  {
    var byId := (x: Project, y: Project) => leq(x.id, y.id);
    forall x, y ensures byId(x, y) || byId(y, x) {
      assert leq(x.id, y.id) || leq(y.id, x.id);
    }
    forall x, y, z | byId(x, y) && byId(y, z) ensures byId(x, z) {
      assert leq(x.id, y.id) && leq(y.id, z.id);
    }
    SortForgetsOrder(a, b, byId);
    forall p ensures p in a <==> p in b {
      assert p in multiset(a) <==> p in multiset(b);
    }
  }

  lemma AdmissionForgets(a: Snapshot, b: Snapshot, load: Load, tasks: seq<Task>)
    requires DistinctProjects(a.projects) && forall p :: p in a.projects <==> p in b.projects
    requires b == a.(readyTasks := b.readyTasks, projects := b.projects)
    ensures Admit(a, load, tasks) == Admit(b, load, tasks)
    ensures StartingDeficits(a) == StartingDeficits(b)
  {
    forall t ensures Obstacle(a, load, t) == Obstacle(b, load, t) {
      SameProjectById(a.projects, b.projects, t.projectId);
    }
    AdmitSame(a, b, load, tasks);
    var ids, ids' := set p | p in a.projects :: p.id, set p | p in b.projects :: p.id;
    assert ids == ids';
  }

  /** Listing the ready tasks or the projects in another order changes nothing. */
  lemma DecisionForgetsOrder(leq: Collation, a: Snapshot, b: Snapshot)
    requires TotalOrder(leq) && DistinctTasks(a.readyTasks) && DistinctProjects(a.projects)
    requires multiset(a.readyTasks) == multiset(b.readyTasks) && multiset(a.projects) == multiset(b.projects)
    requires b == a.(readyTasks := b.readyTasks, projects := b.projects)
    ensures Decide(leq, a) == Decide(leq, b)
  {
    StableOrderForgets(leq, a.readyTasks, b.readyTasks);
    ProjectOrderForgets(leq, a.projects, b.projects);
    AdmissionForgets(a, b, LoadOf(a.activeRuns), StableOrder(leq, a.readyTasks));
    assert SettingOf(leq, a) == SettingOf(leq, b);
    assert Initial(leq, a) == Initial(leq, b);
  }
}
