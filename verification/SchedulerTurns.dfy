/** Whose turn it is: where the rounds over the projects begin, what is taken first, what that
    costs and where the next call begins. */
module SchedulerTurns {
  import opened Orders
  import opened Scheduler
  import opened SchedulerAccounts
  import opened SchedulerAnswers
  import opened SchedulerPartition
  import opened SchedulerRuns
  import opened SchedulerSafety
  import opened Wrappers

  // ------------------------------------------------------------- the books

  /** How many tasks of project p and of this effort are among the selected. */
  function Number(selected: seq<Task>, p: string, effort: Effort): nat {
    if selected == [] then 0
    else
      var t := selected[|selected|-1];
      Number(selected[..|selected|-1], p, effort) + if t.projectId == p && t.effort == effort then 1 else 0
  }

  /** A task without effort or with low effort costs 1, then 2, 4 and 6. */
  function Expense(selected: seq<Task>, p: string): real {
    (Number(selected, p, Off) + Number(selected, p, Low) + 2 * Number(selected, p, Medium)
     + 4 * Number(selected, p, High) + 6 * Number(selected, p, Max)) as real
  }

  lemma {:induction false} SpentIsExpense(selected: seq<Task>, p: string)
    ensures SpentOn(selected, p) == Expense(selected, p)
  {
    if selected == [] {
    } else {
      SpentIsExpense(selected[..|selected|-1], p);
    }
  }

  lemma VisitKeepsKeys(env: Setting, st: State)
    requires st.cursor < |env.order| && Visited(env, st).id in st.deficits
    ensures Visit(env, st).deficits.Keys == st.deficits.Keys
  {
    hide Visit, Refusal, Funded, Select, HeadQueue;
    if HeadQueue(env, st) == [] || KindOf(env, st) == Full {
      NoMoneyAfter(env, st);
    } else if KindOf(env, st) == Selects {
      VisitSelects(env, st);
      PaidKeepsKeys(st, Visited(env, st), Cost(HeadQueue(env, st)[0].effort));
      SelectKeepsKeys(env, Paid(env, st), Visited(env, st), HeadQueue(env, st)[0], HeadQueue(env, st)[1..]);
    } else {
      MoneyAfter(env, st);
    }
  }

  lemma PaidKeepsKeys(st: State, p: Project, cost: real)
    requires p.id in st.deficits
    ensures Funded(st, p, cost).deficits.Keys == st.deficits.Keys
  {
  }

  lemma SelectKeepsKeys(env: Setting, st: State, p: Project, t: Task, rest: seq<Task>)
    requires st.cursor < |env.order| && t.id in env.routeByTask && p.id in st.deficits
    ensures Select(env, st, p, t, rest).deficits.Keys == st.deficits.Keys
  {
    hide Stays, Increment, AddScopes;
  }

  lemma DeficitKeys(leq: Collation, snap: Snapshot)
    requires DistinctProjects(snap.projects)
    ensures Final(leq, snap).deficits.Keys == set p | p in snap.projects :: p.id
  {
    hide Visit, Admit, LoadOf, StableOrder;
    var env, ids := SettingOf(leq, snap), set p | p in snap.projects :: p.id;
    OrderFacts(leq, snap);
    var holds := (st: State) => st.deficits.Keys == ids;
    forall st | holds(st) && Continues(env, st) && st.cursor < |env.order| ensures holds(Visit(env, st)) {
      assert env.order[st.cursor] in snap.projects;
      VisitKeepsKeys(env, st);
    }
    RunInduction(env, Initial(leq, snap), holds);
  }

  /** A project's weight is taken as 1 when it is not finite, and is held between 0.1 and 100. */
  function Share(w: Weight): real {
    if w.NotFinite? then 1.0 else if w.value <= 0.1 then 0.1 else if 100.0 <= w.value then 100.0 else w.value
  }

  /** What is reported for a project is what it started with, plus twice its weight for each
      quantum it was given, less 1, 1, 2, 4 or 6 for each of its selected tasks by effort. */
  lemma DeficitsAddUp(leq: Collation, snap: Snapshot, p: Project)
    requires DistinctProjects(snap.projects) && p in snap.projects
    requires p.id in snap.deficits ==> snap.deficits[p.id] >= 0.0
    ensures var d, end := Decide(leq, snap), Final(leq, snap);
            && p.id in d.deficits
            && d.deficits[p.id] == (if p.id in snap.deficits then snap.deficits[p.id] else 0.0)
                                   + 2.0 * Share(p.weight) * (Count(end.quanta, p.id) as real)
                                   - Expense(end.selected, p.id)
  {
    hide Run, Initial, SpentOn, Expense;
    DeficitsAreAccounted(leq, snap, p);
    DeficitKeys(leq, snap);
    StartingDeficitOf(snap, p);
    SpentIsExpense(Final(leq, snap).selected, p.id);
  }

  // ------------------------------------------------------------- the round

  /** The round has gone past this project: the cursor stands at a project that comes after it. */
  ghost predicate Passed(leq: Collation, snap: Snapshot, id: string) {
    && snap.cursorProjectId.Some? && snap.cursorProjectId.value != ""
    && (exists q :: q in snap.projects && q.id == snap.cursorProjectId.value)
    && !leq(snap.cursorProjectId.value, id)
  }

  /** The turn of p comes before, or is, that of q. */
  ghost predicate Sooner(leq: Collation, snap: Snapshot, p: Project, q: Project) {
    if Passed(leq, snap, p.id) == Passed(leq, snap, q.id) then leq(p.id, q.id) else Passed(leq, snap, q.id)
  }

  ghost predicate Strictly(leq: Collation, order: seq<Project>) {
    forall i, j :: 0 <= i < |order| && 0 <= j < |order| ==> (leq(order[i].id, order[j].id) <==> i <= j)
  }

  lemma OrderIsStrict(leq: Collation, snap: Snapshot)
    requires TotalOrder(leq) && DistinctProjects(snap.projects)
    ensures Strictly(leq, ProjectOrder(leq, snap.projects))
  {
    var byId := (x: Project, y: Project) => leq(x.id, y.id);
    forall x, y ensures byId(x, y) || byId(y, x) {
      assert leq(x.id, y.id) || leq(y.id, x.id);
    }
    forall x, y, z | byId(x, y) && byId(y, z) ensures byId(x, z) {
      assert leq(x.id, y.id) && leq(y.id, z.id);
    }
    SortSorts(snap.projects, byId);
    OrderFacts(leq, snap);
    var order := ProjectOrder(leq, snap.projects);
    forall i, j | 0 <= i < |order| && 0 <= j < |order| ensures leq(order[i].id, order[j].id) <==> i <= j {
      if i < j {
        assert byId(order[i], order[j]);
      } else if j < i {
        assert byId(order[j], order[i]);
      } else {
        assert byId(order[i], order[j]);
      }
    }
  }

  /** The index after m moves around the projects. */
  function Moved(n: nat, s: nat, m: nat): (i: nat)
    requires s < n && m < n
    ensures i < n
  {
    if s + m < n then s + m else s + m - n
  }

  /** How many moves lead from s to i. */
  function Distance(n: nat, s: nat, i: nat): (m: nat)
    requires s < n && i < n
    ensures m < n && Moved(n, s, m) == i
  {
    if s <= i then i - s else i + n - s
  }

  /** The first turn goes to the project at the cursor, or to the first of all; from there the
      turns go round in ascending order of the identifiers. */
  lemma TurnsGoRound(leq: Collation, snap: Snapshot, i: nat, j: nat)
    requires TotalOrder(leq) && DistinctProjects(snap.projects)
    requires i < |snap.projects| && j < |snap.projects|
    ensures var order, s := ProjectOrder(leq, snap.projects), Initial(leq, snap).cursor;
            && |order| == |snap.projects| && s < |order|
            && (Sooner(leq, snap, order[i], order[j]) <==> Distance(|order|, s, i) <= Distance(|order|, s, j))
  {
    hide Admit, LoadOf, StableOrder, StartingDeficits;
    var order, s := ProjectOrder(leq, snap.projects), Initial(leq, snap).cursor;
    OrderIsStrict(leq, snap);
    OrderFacts(leq, snap);
    CursorSplits(leq, snap, order, i);
    CursorSplits(leq, snap, order, j);
  }

  lemma CursorSplits(leq: Collation, snap: Snapshot, order: seq<Project>, i: nat)
    requires Strictly(leq, order) && i < |order| && forall p :: p in order <==> p in snap.projects
    ensures Passed(leq, snap, order[i].id) <==> i < StartingCursor(order, snap.cursorProjectId)
  {
    if snap.cursorProjectId.Some? && snap.cursorProjectId.value != "" {
      var id := snap.cursorProjectId.value;
      if q :| q in snap.projects && q.id == id {
        assert q in order;
        var k :| 0 <= k < |order| && order[k] == q;
        assert order[k].id == id;
        assert order[StartingCursor(order, Some(id))].id == id;
      } else {
        assert forall k :: 0 <= k < |order| ==> order[k] in snap.projects;
      }
    }
  }

  lemma RunOnce(env: Setting, st: State)
    requires st.cursor < |env.order| && Continues(env, st)
    ensures Run(env, st) == Run(env, Visit(env, st))
  {
  }

  /** Empty queues are passed over. */
  lemma {:induction false} SkipVacant(env: Setting, st: State, m: nat)
    requires st.cursor < |env.order| && m < |env.order| && st.idle + m <= MaxIdle(env)
    requires |st.selected| < env.slots && Waiting(st.queues)
    requires forall i :: 0 <= i < m ==> QueueOf(st.queues, env.order[Moved(|env.order|, st.cursor, i)].id) == []
    ensures Run(env, st)
         == Run(env, st.(cursor := Moved(|env.order|, st.cursor, m), idle := st.idle + m))
  {
    hide Run, Visit;
    if m == 0 {
      assert st.(cursor := st.cursor, idle := st.idle) == st;
    } else {
      var n := |env.order|;
      var before := st.(cursor := Moved(n, st.cursor, m - 1), idle := st.idle + m - 1);
      SkipVacant(env, st, m - 1);
      RunOnce(env, before);
      VisitVacant(env, before);
      assert Visit(env, before) == st.(cursor := Moved(n, st.cursor, m), idle := st.idle + m);
    }
  }

  // -------------------------------------------------------- the first task

  /** t is a ready task of this project that nothing stands against. */
  ghost predicate Available(snap: Snapshot, id: string, t: Task) {
    t in snap.readyTasks && t.projectId == id && Admissible(snap, t)
  }

  /** t is the first of the available tasks of this project, but for those of done. */
  ghost predicate NextOf(leq: Collation, snap: Snapshot, id: string, t: Task, done: seq<Task>) {
    && Available(snap, id, t) && t !in done
    && forall u :: Available(snap, id, u) && u !in done && u != t ==> Precedes(leq, t, u)
  }

  lemma {:induction false} LaneMembers(obstacle: Task -> Option<BlockReason>, tasks: seq<Task>, p: string)
    ensures forall t :: t in Lane(obstacle, tasks, p) <==> t in tasks && t.projectId == p && obstacle(t) == None
  {
    if tasks == [] {
    } else {
      LaneMembers(obstacle, tasks[..|tasks|-1], p);
      assert tasks == tasks[..|tasks|-1] + [tasks[|tasks|-1]];
    }
  }

  lemma LaneIsDistinct(obstacle: Task -> Option<BlockReason>, tasks: seq<Task>, p: string)
    requires DistinctTasks(tasks)
    ensures DistinctTasks(Lane(obstacle, tasks, p))
  {
    LaneIsSubsequence(obstacle, tasks, p);
    var f :| Embeds(f, Lane(obstacle, tasks, p), tasks);
  }

  /** The queue of a project is made of its available tasks, in order, each once. */
  lemma QueueOfAvailable(leq: Collation, snap: Snapshot, id: string)
    requires TotalOrder(leq) && DistinctTasks(snap.readyTasks)
    ensures var queue := QueueOf(Initial(leq, snap).queues, id);
            && (forall t :: t in queue <==> Available(snap, id, t))
            && Ranked(leq, queue) && DistinctTasks(queue)
  {
    hide Obstacle, StableOrder, Ranked, Lane, LoadOf, StartingDeficits, LacksTrust, ProjectIsFull,
         RouteIsFull, Collides;
    var tasks := StableOrder(leq, snap.readyTasks);
    StableOrderFacts(leq, snap.readyTasks);
    StableOrderIsRanked(leq, snap.readyTasks);
    AdmitQueues(snap, tasks, id);
    LaneMembers(ObstacleIn(snap), tasks, id);
    LaneIsRanked(leq, ObstacleIn(snap), tasks, id);
    LaneIsDistinct(ObstacleIn(snap), tasks, id);
    forall t ensures ObstacleIn(snap)(t) == None <==> Admissible(snap, t) {
      ObstacleByCounts(leq, snap, t);
    }
  }

  lemma RankedFirst(leq: Collation, queue: seq<Task>, k: nat, i: nat)
    requires TotalOrder(leq) && Ranked(leq, queue) && k <= i < |queue| && DistinctTasks(queue)
    requires queue[i] != queue[k] ==> Precedes(leq, queue[i], queue[k])
    ensures i == k
  {
  }

  lemma NextIsNext(leq: Collation, snap: Snapshot, id: string, t: Task, k: nat)
    requires TotalOrder(leq) && DistinctTasks(snap.readyTasks)
    requires var queue := QueueOf(Initial(leq, snap).queues, id); k <= |queue| && NextOf(leq, snap, id, t, queue[..k])
    ensures var queue := QueueOf(Initial(leq, snap).queues, id); k < |queue| && queue[k] == t
  {
    hide Initial, Available;
    QueueOfAvailable(leq, snap, id);
    var queue := QueueOf(Initial(leq, snap).queues, id);
    var i :| 0 <= i < |queue| && queue[i] == t;
    assert forall j :: 0 <= j < k ==> queue[j] == queue[..k][j];
    assert i >= k;
    assert queue[k] in queue && queue[k] !in queue[..k];
    RankedFirst(leq, queue, k, i);
  }

  /** A task that nothing stands against is selected when it is reached first and can be paid. */
  lemma ClearIsSelected(leq: Collation, snap: Snapshot, st: State, t: Task)
    requires var env := SettingOf(leq, snap); st.cursor < |env.order| && HeadQueue(env, st) != []
    requires var env := SettingOf(leq, snap); HeadQueue(env, st)[0] == t && Visited(env, st).id == t.projectId
    requires var start := Initial(leq, snap); st == start.(cursor := st.cursor, idle := st.idle)
    requires ObstacleIn(snap)(t) == None
    requires var env := SettingOf(leq, snap);
             DeficitOf(st.deficits, t.projectId) + Quantum(Visited(env, st)) >= Cost(t.effort)
    ensures KindOf(SettingOf(leq, snap), st) == Selects
  {
    hide Admit, StableOrder, Count, Tally, Clashes, ProjectById, Cost, ProjectOrder, StartingDeficits, StartingCursor;
  }

  ghost predicate TakesTurn(leq: Collation, snap: Snapshot, p: Project, t: Task) {
    && p in snap.projects && NextOf(leq, snap, p.id, t, [])
    && (forall q, u :: q in snap.projects && Available(snap, q.id, u) ==> Sooner(leq, snap, p, q))
    && (if p.id in snap.deficits then snap.deficits[p.id] else 0.0) + 2.0 * Share(p.weight) >= Expense([t], p.id)
  }

  lemma CostIsExpense(t: Task)
    ensures Expense([t], t.projectId) == Cost(t.effort)
  {
    SpentIsExpense([t], t.projectId);
    assert [] + [t] == [t];
    SpentOnSnoc([], t, t.projectId);
  }

  /** The loop passes over the projects in front of p. */
  lemma ReachesFirst(leq: Collation, snap: Snapshot, p: Project, t: Task) returns (k: nat, m: nat)
    requires TotalOrder(leq) && DistinctProjects(snap.projects) && DistinctTasks(snap.readyTasks)
    requires snap.limits.globalMaxRuns > |snap.activeRuns| && TakesTurn(leq, snap, p, t)
    ensures var env, start := SettingOf(leq, snap), Initial(leq, snap);
            && k < |env.order| && env.order[k] == p && start.cursor < |env.order|
            && QueueOf(start.queues, p.id) != [] && QueueOf(start.queues, p.id)[0] == t
            && m < |env.order| && Final(leq, snap) == Run(env, start.(cursor := k, idle := m))
  {
    hide Run, Initial, Available, Sooner, Obstacle, Visit, KindOf, Precedes, Expense;
    var env, start := SettingOf(leq, snap), Initial(leq, snap);
    OrderFacts(leq, snap);
    k :| 0 <= k < |env.order| && env.order[k] == p;
    TurnsGoRound(leq, snap, k, k);
    var n, s := |env.order|, start.cursor;
    m := Distance(n, s, k);
    assert QueueOf(start.queues, p.id)[..0] == [];
    NextIsNext(leq, snap, p.id, t, 0);
    forall i | 0 <= i < m ensures QueueOf(start.queues, env.order[Moved(n, s, i)].id) == [] {
      EarlierIsVacant(leq, snap, p, t, k, i);
    }
    InitialLooks(leq, snap);
    SkipVacant(env, start, m);
  }

  /** The state in which the first available task is reached. */
  lemma FirstVisit(leq: Collation, snap: Snapshot, p: Project, t: Task) returns (k: nat, m: nat)
    requires TotalOrder(leq) && DistinctProjects(snap.projects) && DistinctTasks(snap.readyTasks)
    requires snap.limits.globalMaxRuns > |snap.activeRuns| && TakesTurn(leq, snap, p, t)
    ensures var env, start := SettingOf(leq, snap), Initial(leq, snap);
            && k < |env.order| && env.order[k] == p
            && start.cursor < |env.order|
            && var st := start.(cursor := k, idle := m);
               && Final(leq, snap) == Run(env, st) && Continues(env, st)
               && KindOf(env, st) == Selects && HeadQueue(env, st) != [] && HeadQueue(env, st)[0] == t
  {
    hide Final, Run, Initial, Sooner, Obstacle, Visit, KindOf, Precedes, Expense, LacksTrust, ProjectIsFull,
         RouteIsFull, Collides;
    k, m := ReachesFirst(leq, snap, p, t);
    InitialLooks(leq, snap);
    ObstacleByCounts(leq, snap, t);
    CostIsExpense(t);
    StartingDeficitOf(snap, p);
    ClearIsSelected(leq, snap, Initial(leq, snap).(cursor := k, idle := m), t);
  }

  lemma InitialLooks(leq: Collation, snap: Snapshot)
    ensures Initial(leq, snap).idle == 0 && Initial(leq, snap).selected == []
    ensures Initial(leq, snap).deficits == StartingDeficits(snap)
  {
  }

  lemma NoMembers(queue: seq<Task>)
    ensures (forall t :: t !in queue) ==> queue == []
  {
    if queue != [] {
      assert queue[0] in queue;
    }
  }

  lemma EarlierIsVacant(leq: Collation, snap: Snapshot, p: Project, t: Task, k: nat, i: nat)
    requires TotalOrder(leq) && DistinctProjects(snap.projects) && DistinctTasks(snap.readyTasks)
    requires TakesTurn(leq, snap, p, t)
    requires var env, start := SettingOf(leq, snap), Initial(leq, snap);
             && k < |env.order| && env.order[k] == p && start.cursor < |env.order|
             && i < Distance(|env.order|, start.cursor, k)
    ensures var env, start := SettingOf(leq, snap), Initial(leq, snap);
            QueueOf(start.queues, env.order[Moved(|env.order|, start.cursor, i)].id) == []
  {
    hide Initial, Admissible, Sooner, Precedes, Expense;
    var env, start := SettingOf(leq, snap), Initial(leq, snap);
    var j := Moved(|env.order|, start.cursor, i);
    var q := env.order[j];
    OrderFacts(leq, snap);
    TurnsGoRound(leq, snap, k, j);
    QueueOfAvailable(leq, snap, q.id);
    NoMembers(QueueOf(start.queues, q.id));
  }

  // -------------------------------------------------------- main results

  lemma SelectedStays(env: Setting, st: State)
    requires InRange(env, st)
    ensures st.selected <= Run(env, st).selected
  {
    hide Visit, Run, Continues;
    var holds := (s: State) => st.selected <= s.selected;
    forall s | holds(s) && Continues(env, s) && s.cursor < |env.order| ensures holds(Visit(env, s)) {
      SelectedGrows(env, s);
    }
    RunInduction(env, st, holds);
  }

  /** With a slot free, the first task taken is the first available one of the project whose turn
      comes first among those with available tasks, if one quantum is enough for it. */
  lemma FirstTaken(leq: Collation, snap: Snapshot, p: Project, t: Task)
    requires TotalOrder(leq) && DistinctProjects(snap.projects) && DistinctTasks(snap.readyTasks)
    requires snap.limits.globalMaxRuns > |snap.activeRuns| && TakesTurn(leq, snap, p, t)
    ensures var ids := Decide(leq, snap).selectedTaskIds; ids != [] && ids[0] == t.id
  {
    hide Initial, Run, Visit, TakesTurn, KindOf, Continues;
    var env := SettingOf(leq, snap);
    var k, m := FirstVisit(leq, snap, p, t);
    var st := Initial(leq, snap).(cursor := k, idle := m);
    WhenSelecting(env, st);
    RunOnce(env, st);
    SelectedStays(env, Visit(env, st));
    InitialLooks(leq, snap);
    assert Visit(env, st).selected[0] == t;
  }

  /** q is the project after p: the next identifier in ascending order, or the least. */
  ghost predicate Follows(leq: Collation, projects: seq<Project>, p: Project, q: Project) {
    && q in projects
    && (leq(q.id, p.id) ==> forall r :: r in projects ==> leq(r.id, p.id))
    && forall r :: r in projects && (leq(r.id, p.id) <==> leq(q.id, p.id)) ==> leq(q.id, r.id)
  }

  lemma NextFollows(leq: Collation, snap: Snapshot, k: nat)
    requires TotalOrder(leq) && DistinctProjects(snap.projects) && k < |ProjectOrder(leq, snap.projects)|
    ensures var order := ProjectOrder(leq, snap.projects);
            Follows(leq, snap.projects, order[k], order[Advance(k, |order|)])
  {
    var order := ProjectOrder(leq, snap.projects);
    OrderIsStrict(leq, snap);
    OrderFacts(leq, snap);
    hide ProjectOrder;
    var q := order[Advance(k, |order|)];
    assert leq(q.id, order[k].id) <==> k + 1 == |order|;
    forall r | r in snap.projects && (leq(r.id, order[k].id) <==> leq(q.id, order[k].id)) ensures leq(q.id, r.id) {
      assert r in order;
      var i :| 0 <= i < |order| && order[i] == r;
    }
    if k + 1 == |order| {
      forall r | r in snap.projects ensures leq(r.id, order[k].id) {
        assert r in order;
        var i :| 0 <= i < |order| && order[i] == r;
      }
    }
  }

  /** What the project has left once t is taken: one quantum is added when t was not affordable. */
  function Left(snap: Snapshot, p: Project, t: Task): real {
    var start := if p.id in snap.deficits then snap.deficits[p.id] else 0.0;
    var price := Expense([t], p.id);
    (if start < price then start + 2.0 * Share(p.weight) else start) - price
  }

  /** The project keeps its turn when it can pay for its next available task; without one, when
      it could pay for the same once more. */
  ghost predicate KeepsTurn(leq: Collation, snap: Snapshot, p: Project, t: Task) {
    || (exists u :: NextOf(leq, snap, p.id, u, [t]) && Left(snap, p, t) >= Expense([u], p.id))
    || ((forall u :: Available(snap, p.id, u) ==> u == t) && Left(snap, p, t) >= Expense([t], p.id))
  }

  lemma RunEnds(env: Setting, st: State)
    requires InRange(env, st) && |st.selected| >= env.slots
    ensures Run(env, st) == st
  {
  }

  lemma OneSlotMoney(leq: Collation, snap: Snapshot, p: Project, t: Task, st: State)
    requires var env := SettingOf(leq, snap);
             && st.cursor < |env.order| && env.order[st.cursor] == p && p in snap.projects
             && st.deficits == StartingDeficits(snap)
             && KindOf(env, st) == Selects && HeadQueue(env, st) != [] && HeadQueue(env, st)[0] == t
    requires t.projectId == p.id
    ensures Visit(SettingOf(leq, snap), st).deficits == StartingDeficits(snap)[p.id := Left(snap, p, t)]
  {
    hide Visit, KindOf, StartingDeficits, Expense, Stays, Increment, AddScopes, Cost;
    var env := SettingOf(leq, snap);
    StartingDeficitOf(snap, p);
    CostIsExpense(t);
    VisitSelects(env, st);
    MoneyAfter(env, st);
  }

  /** The tasks of the queue behind the first one, seen from outside. */
  lemma SecondInQueue(leq: Collation, snap: Snapshot, p: Project, t: Task)
    requires TotalOrder(leq) && DistinctTasks(snap.readyTasks)
    requires var queue := QueueOf(Initial(leq, snap).queues, p.id); queue != [] && queue[0] == t
    ensures var queue := QueueOf(Initial(leq, snap).queues, p.id);
            && (|queue| == 1 <==> forall u :: Available(snap, p.id, u) ==> u == t)
            && forall u :: NextOf(leq, snap, p.id, u, [t]) <==> |queue| > 1 && u == queue[1]
  {
    hide Initial, Available, Precedes;
    QueueOfAvailable(leq, snap, p.id);
    var queue := QueueOf(Initial(leq, snap).queues, p.id);
    assert queue[..1] == [t];
    if |queue| == 1 {
      assert forall u :: u in queue ==> u == t;
    } else {
      assert queue[1] in queue && queue[1] != t;
      forall u | u in queue && u !in [t] && u != queue[1] ensures Precedes(leq, queue[1], u) {
        var i :| 0 <= i < |queue| && queue[i] == u;
        RankedPrecedes(leq, queue, 1, i);
      }
    }
    forall u | NextOf(leq, snap, p.id, u, [t]) ensures |queue| > 1 && u == queue[1] {
      NextIsNext(leq, snap, p.id, u, 1);
    }
  }

  lemma RankedPrecedes(leq: Collation, queue: seq<Task>, i: nat, j: nat)
    requires Ranked(leq, queue) && i < j < |queue|
    ensures Precedes(leq, queue[i], queue[j])
  {
  }

  lemma OneSlotCursor(leq: Collation, snap: Snapshot, p: Project, t: Task, st: State, k: nat)
    requires TotalOrder(leq) && DistinctTasks(snap.readyTasks) && p in snap.projects && t.projectId == p.id
    requires snap.limits.globalMaxRuns == |snap.activeRuns| + 1
    requires var env := SettingOf(leq, snap);
             && k < |env.order| && env.order[k] == p && st == Initial(leq, snap).(cursor := k, idle := st.idle)
             && KindOf(env, st) == Selects && HeadQueue(env, st) != [] && HeadQueue(env, st)[0] == t
    ensures var env := SettingOf(leq, snap);
            Visit(env, st).cursor == if KeepsTurn(leq, snap, p, t) then k else Advance(k, |env.order|)
  {
    hide Visit, KindOf, StartingDeficits, Left, Expense, NextOf, Available, Initial, Cost;
    var env, queue := SettingOf(leq, snap), HeadQueue(SettingOf(leq, snap), st);
    var next := Visit(env, st);
    InitialLooks(leq, snap);
    WhenSelecting(env, st);
    OneSlotMoney(leq, snap, p, t, st);
    CursorAfter(env, st);
    CostIsExpense(t);
    SecondInQueue(leq, snap, p, t);
    assert DeficitOf(next.deficits, p.id) == Left(snap, p, t);
    if |queue| > 1 {
      QueueOfAvailable(leq, snap, p.id);
      assert queue[1] in queue && Available(snap, p.id, queue[1]);
      AvailableIsOwn(snap, p.id, queue[1]);
      CostIsExpense(queue[1]);
    }
  }

  lemma AvailableIsOwn(snap: Snapshot, id: string, t: Task)
    requires Available(snap, id, t)
    ensures t.projectId == id
  {
  }

  /** The complete answer for a single slot: the one task, the deficits and the next cursor. */
  lemma SingleSlot(leq: Collation, snap: Snapshot, p: Project, t: Task)
    requires TotalOrder(leq) && DistinctProjects(snap.projects) && DistinctTasks(snap.readyTasks)
    requires snap.limits.globalMaxRuns == |snap.activeRuns| + 1 && TakesTurn(leq, snap, p, t)
    ensures var d := Decide(leq, snap);
            && d.selectedTaskIds == [t.id]
            && d.deficits == StartingDeficits(snap)[p.id := Left(snap, p, t)]
            && exists q :: (if KeepsTurn(leq, snap, p, t) then q == p else Follows(leq, snap.projects, p, q))
                           && d.cursorProjectId == if q.id == "" then None else Some(q.id)
  {
    hide Initial, Run, Visit, KindOf, Follows, KeepsTurn, Left, ProjectOrder, Admissible, Precedes, Sooner, Expense;
    var env := SettingOf(leq, snap);
    var k, m := FirstVisit(leq, snap, p, t);
    var st := Initial(leq, snap).(cursor := k, idle := m);
    var next := Visit(env, st);
    InitialLooks(leq, snap);
    WhenSelecting(env, st);
    RunOnce(env, st);
    RunEnds(env, next);
    OneSlotMoney(leq, snap, p, t, st);
    OneSlotCursor(leq, snap, p, t, st, k);
    NextFollows(leq, snap, k);
    assert TaskIds([t]) == [t.id];
  }
}
