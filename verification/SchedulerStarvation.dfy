/** Tasks dropped inside the loop use up the same budget as idle visits, so a task can be left
    out although a slot is free and nothing stands in its way. How many admitted tasks a project
    may have without that, exactly: for each weight, and 35 for all weights. */
module SchedulerStarvation {
  import opened Orders
  import opened Scheduler
  import opened SchedulerAccounts
  import opened SchedulerPartition
  import opened SchedulerRuns
  import opened Wrappers

  /** With at most k admitted tasks a project, every call fills its slots or empties its queues. */
  ghost predicate Conserves(leq: Collation, k: nat) {
    forall snap: Snapshot ::
      DistinctProjects(snap.projects) && NonNegative(snap.deficits) && AtMost(Initial(leq, snap), k) ==>
        AllServed(leq, snap)
  }

  ghost predicate AtMost(st: State, k: nat) {
    forall id :: |QueueOf(st.queues, id)| <= k
  }

  ghost predicate AllServed(leq: Collation, snap: Snapshot) {
    || |Final(leq, snap).selected| >= snap.limits.globalMaxRuns - |snap.activeRuns|
    || forall id :: QueueOf(Final(leq, snap).queues, id) == []
  }

  /** With at most k admitted tasks, every project of this weight is served: the slots are filled or
      its queue is empty at the end. */
  ghost predicate Protects(leq: Collation, weight: Weight, k: nat) {
    forall snap: Snapshot, p: Project ::
      DistinctProjects(snap.projects) && NonNegative(snap.deficits) && p in snap.projects && p.weight == weight
      && |QueueOf(Initial(leq, snap).queues, p.id)| <= k ==>
        IsServed(leq, snap, p)
  }

  ghost predicate IsServed(leq: Collation, snap: Snapshot, p: Project) {
    |Final(leq, snap).selected| >= SettingOf(leq, snap).slots || QueueOf(Final(leq, snap).queues, p.id) == []
  }

  // ------------------------------------------------------ a crowded project

  /** Project x has one task and project y, of some weight, one more than it will lose. */
  datatype Crowd = Crowd(x: string, y: string, weight: Weight, drops: nat)

  function Size(c: Crowd): nat {
    c.drops + 2
  }

  function CrowdQuantum(c: Crowd): real {
    Quantum(Project(c.y, Trusted, c.weight))
  }

  /** Of 64 visits to y all but the drops are too few to save 6, and one more is enough. */
  ghost predicate ValidCrowd(c: Crowd) {
    && c.x != c.y && 35 <= c.drops <= 64
    && Times(64 - c.drops, CrowdQuantum(c)) < 6.0 <= Times(65 - c.drops, CrowdQuantum(c))
  }

  function Name(i: nat): string {
    seq(i + 1, _ => 'x')
  }

  function CrowdTask(c: Crowd, i: nat): Task
    requires i < Size(c)
  {
    Task(Name(i), if i == 0 then c.x else c.y, if i == 0 then Low else Max, (Size(c) - i) as real, None, [])
  }

  function CrowdTasks(c: Crowd): (tasks: seq<Task>)
    ensures |tasks| == Size(c) && forall i :: 0 <= i < Size(c) ==> tasks[i] == CrowdTask(c, i)
  {
    seq(Size(c), i requires 0 <= i < Size(c) => CrowdTask(c, i))
  }

  /** The last task uses an idle adapter; all others share one that allows a single run. */
  function RouteFor(c: Crowd, id: string): Route {
    if |id| < Size(c) then Route("busy", "account") else Route("idle", "account")
  }

  /** Project x has a large weight. */
  function Crowded(c: Crowd): Snapshot {
    Snapshot([Project(c.x, Trusted, Finite(100.0)), Project(c.y, Trusted, c.weight)], CrowdTasks(c), [],
             map id | id in (set i | 0 <= i < Size(c) :: Name(i)) :: RouteFor(c, id),
             Limits(2, 10, map["busy" := 1], map[], false), map[], None)
  }

  lemma CrowdIsOrdered(leq: Collation, c: Crowd)
    ensures StableOrder(leq, CrowdTasks(c)) == CrowdTasks(c)
  {
    SortOfSorted(CrowdTasks(c), (a, b) => TaskLeq(leq, a, b));
  }

  lemma CrowdTaskIsClear(c: Crowd, i: nat)
    requires i < Size(c) && c.x != c.y
    ensures Obstacle(Crowded(c), LoadOf([]), CrowdTask(c, i)) == None
    ensures CrowdTask(c, i).projectId == if i == 0 then c.x else c.y
  {
    var snap := Crowded(c);
    assert snap.projects[..1] == [snap.projects[0]];
    assert CrowdTask(c, i).id in snap.routeByTask;
    assert ProjectById(snap.projects, c.x) == Some(snap.projects[0]);
    assert ProjectById(snap.projects, c.y) == Some(snap.projects[1]);
  }

  /** The queues after the first k tasks were admitted. */
  function CrowdQueues(c: Crowd, k: nat): Queues
    requires 1 <= k <= Size(c)
  {
    if k == 1 then map[c.x := [CrowdTask(c, 0)]]
    else map[c.x := [CrowdTask(c, 0)], c.y := CrowdTasks(c)[1..k]]
  }

  lemma {:induction false} CrowdIsAdmitted(c: Crowd, k: nat)
    requires 1 <= k <= Size(c) && c.x != c.y
    ensures Admit(Crowded(c), LoadOf([]), CrowdTasks(c)[..k]) == Admission(CrowdQueues(c, k), map[])
  {
    var snap, tasks := Crowded(c), CrowdTasks(c);
    CrowdTaskIsClear(c, k - 1);
    assert tasks[..k] == tasks[..k-1] + [tasks[k-1]];
    hide Obstacle, Crowded, CrowdTask, CrowdTasks, LoadOf;
    if k == 1 {
      assert tasks[..0] == [] && Admit(snap, LoadOf([]), []) == Admission(map[], map[]);
      AdmitClear(snap, LoadOf([]), [], tasks[0]);
      assert [] + [tasks[0]] == [tasks[0]];
    } else {
      CrowdIsAdmitted(c, k - 1);
      AdmitClear(snap, LoadOf([]), tasks[..k-1], tasks[k-1]);
      hide Admit;
      OneMoreWaits(c, k);
    }
  }

  lemma OneMoreWaits(c: Crowd, k: nat)
    requires 2 <= k <= Size(c) && c.x != c.y
    ensures var before := CrowdQueues(c, k - 1);
            before[c.y := QueueOf(before, c.y) + [CrowdTask(c, k - 1)]] == CrowdQueues(c, k)
  {
    hide CrowdTask;
    var tasks := CrowdTasks(c);
    assert tasks[1..k] == tasks[1..k-1] + [tasks[k-1]];
    if k == 2 {
      assert tasks[1..1] == [];
    }
  }

  lemma CrowdSetting(leq: Collation, c: Crowd)
    requires ValidCrowd(c) && leq(c.x, c.y)
    ensures var env, snap := SettingOf(leq, Crowded(c)), Crowded(c);
            && env.order == snap.projects && |env.order| == 2 && env.slots == 2 && MaxIdle(env) == 128
            && env.limits == snap.limits && env.routeByTask == snap.routeByTask
  {
    SortOfSorted(Crowded(c).projects, (p: Project, q: Project) => leq(p.id, q.id));
  }

  /** Before the first visit: everything is queued and nothing is running. */
  ghost predicate CrowdWaits(st: State, c: Crowd) {
    && st.queues == CrowdQueues(c, Size(c)) && st.blocked == map[] && st.deficits == map[c.x := 0.0, c.y := 0.0]
    && st.selected == [] && st.adapterRuns == map[] && st.projectRuns == map[] && st.accountRuns == map[]
    && st.scopes == map[] && st.cursor == 0 && st.idle == 0
  }

  lemma CrowdDeficits(c: Crowd)
    requires c.x != c.y
    ensures StartingDeficits(Crowded(c)) == map[c.x := 0.0, c.y := 0.0]
  {
    var snap := Crowded(c);
    assert snap.projects[0] in snap.projects && snap.projects[1] in snap.projects;
    assert forall p :: p in snap.projects ==> p == snap.projects[0] || p == snap.projects[1];
    assert (set p | p in snap.projects :: p.id) == {c.x, c.y};
  }

  lemma NoCursor(order: seq<Project>)
    ensures StartingCursor(order, None) == 0
  {
  }

  lemma CrowdBegins(leq: Collation, c: Crowd)
    requires c.x != c.y
    ensures CrowdWaits(Initial(leq, Crowded(c)), c)
  {
    var snap := Crowded(c);
    CrowdIsOrdered(leq, c);
    CrowdIsAdmitted(c, Size(c));
    CrowdDeficits(c);
    NoCursor(ProjectOrder(leq, snap.projects));
    assert CrowdTasks(c)[..Size(c)] == CrowdTasks(c);
    assert LoadOf([]) == Load(map[], map[], map[], map[]);
    hide Admit, StableOrder, CrowdTasks, StartingDeficits, StartingCursor, ProjectOrder, LoadOf, CrowdQueues, RouteFor;
  }

  // -------------------------------------------------------------- the call

  function Min(a: nat, b: nat): nat {
    if a < b then a else b
  }

  /** The first of the tasks of y that is left after m visits. */
  function NextTask(c: Crowd, m: nat): (k: nat)
    requires 35 <= c.drops <= 64 && m <= 64
    ensures 1 <= k < Size(c)
  {
    if m < 64 - c.drops then 1 else m + c.drops - 63
  }

  /** After m rounds: x has its run and nothing more to offer, and of the m visits to y those
      before the drops could not pay and each later one dropped a task. */
  ghost predicate Round(st: State, c: Crowd, m: nat)
    requires 35 <= c.drops <= 64
  {
    && m <= 64 && st.cursor == 1 && st.idle == 2 * m && st.selected == [CrowdTask(c, 0)]
    && QueueOf(st.queues, c.x) == [] && QueueOf(st.queues, c.y) == CrowdTasks(c)[NextTask(c, m)..]
    && DeficitOf(st.deficits, c.y) == Times(Min(m, 65 - c.drops), CrowdQuantum(c))
    && Count(st.adapterRuns, "busy") == 1 && Count(st.adapterRuns, "idle") == 0 && Count(st.projectRuns, c.y) == 0
    && ScopesIn(st.scopes, c.y) == [] && Name(c.drops + 1) !in st.blocked
  }

  lemma QueueIsWaiting(queues: Queues, id: string)
    requires QueueOf(queues, id) != []
    ensures Waiting(queues)
  {
    assert id in queues && queues[id] != [];
  }

  /** The first visit gives x its run and moves on to y. */
  lemma CrowdStarts(leq: Collation, c: Crowd, start: State)
    requires ValidCrowd(c) && leq(c.x, c.y) && CrowdWaits(start, c)
    ensures var env := SettingOf(leq, Crowded(c));
            start.cursor < |env.order| && Continues(env, start) && Round(Visit(env, start), c, 0)
  {
    var env := SettingOf(leq, Crowded(c));
    CrowdSetting(leq, c);
    hide SettingOf;
    var t := CrowdTask(c, 0);
    assert t.id in env.routeByTask && RouteFor(c, t.id) == Route("busy", "account");
    FirstIsSelected(env, c, start);
    QueueIsWaiting(start.queues, c.x);
    VisitSelects(env, start);
    MoneyAfter(env, start);
    assert [t][1..] == [] && [] + [t] == [t];
    assert "busy" != "idle" by { assert "busy"[0] != "idle"[0]; }
    hide Visit, KindOf, CrowdTasks, Crowded;
  }

  lemma FirstIsSelected(env: Setting, c: Crowd, start: State)
    requires ValidCrowd(c) && CrowdWaits(start, c) && |env.order| == 2 && env.order == Crowded(c).projects
    requires env.limits == Crowded(c).limits && env.routeByTask == Crowded(c).routeByTask
    ensures HeadQueue(env, start) == [CrowdTask(c, 0)] && KindOf(env, start) == Selects
  {
    var t := CrowdTask(c, 0);
    assert t.id in env.routeByTask;
    assert !Clashes(start.scopes, t, false);
    assert Refusal(env, start, t) == None;
    hide Refusal;
  }

  /** One round: a visit to y that cannot pay or drops its next task, and an idle visit to x. */
  lemma CrowdRound(leq: Collation, c: Crowd, st: State, m: nat)
    requires ValidCrowd(c) && leq(c.x, c.y) && Round(st, c, m) && m < 64
    ensures var env := SettingOf(leq, Crowded(c));
            && st.cursor < |env.order| && Continues(env, st)
            && var mid := Visit(env, st);
               mid.cursor < |env.order| && Continues(env, mid) && Round(Visit(env, mid), c, m + 1)
  {
    hide Round, Crowded, SettingOf, Visit, Continues;
    CrowdSetting(leq, c);
    WaitingRound(leq, c, st, m);
    var mid := Visit(SettingOf(leq, Crowded(c)), st);
    IdleVisit(leq, c, mid, m);
  }

  /** Between the two visits of a round. */
  ghost predicate HalfRound(st: State, c: Crowd, m: nat)
    requires 35 <= c.drops <= 64
  {
    && m < 64 && st.cursor == 0 && st.idle == 2 * m + 1
    && QueueOf(st.queues, c.x) == [] && Round(st.(cursor := 1, idle := 2 * m + 2), c, m + 1)
  }

  lemma WaitingRound(leq: Collation, c: Crowd, st: State, m: nat)
    requires ValidCrowd(c) && leq(c.x, c.y) && Round(st, c, m) && m < 64
    ensures var env := SettingOf(leq, Crowded(c));
            st.cursor < |env.order| && Continues(env, st) && HalfRound(Visit(env, st), c, m)
  {
    var env := SettingOf(leq, Crowded(c));
    CrowdSetting(leq, c);
    hide SettingOf;
    QueueIsWaiting(st.queues, c.y);
    if m < 64 - c.drops {
      PoorVisit(env, c, st, m);
    } else {
      DropVisit(env, c, st, m);
    }
  }

  ghost predicate CrowdEnv(env: Setting, c: Crowd) {
    && ValidCrowd(c) && |env.order| == 2 && env.order == Crowded(c).projects && env.slots == 2
    && env.limits == Crowded(c).limits && env.routeByTask == Crowded(c).routeByTask
  }

  lemma PoorVisit(env: Setting, c: Crowd, st: State, m: nat)
    requires CrowdEnv(env, c) && Round(st, c, m) && m < 64 - c.drops
    ensures HalfRound(Visit(env, st), c, m)
  {
    hide CrowdTasks, RouteFor, Visit;
    QuantumIsPositive(env.order[1]);
    hide Times, Quantum;
    TimesOrder(m + 1, 64 - c.drops, CrowdQuantum(c));
    TimesNext(m, CrowdQuantum(c));
    assert env.order[1] == Project(c.y, Trusted, c.weight) && CrowdTasks(c)[1] == CrowdTask(c, 1);
    assert KindOf(env, st) == Unaffordable;
    VisitUnaffordable(env, st);
    hide KindOf;
  }

  lemma DropVisit(env: Setting, c: Crowd, st: State, m: nat)
    requires CrowdEnv(env, c) && Round(st, c, m) && 64 - c.drops <= m < 64
    ensures HalfRound(Visit(env, st), c, m)
  {
    var queue := CrowdTasks(c)[m+c.drops-63..];
    assert queue[0] == CrowdTask(c, m + c.drops - 63) && queue[1..] == CrowdTasks(c)[m+c.drops-62..];
    DropIsRefused(env, c, st, m);
    hide CrowdTasks, RouteFor, Visit, KindOf, Crowded, Times, CrowdQuantum;
    assert |Name(c.drops + 1)| != |queue[0].id|;
    VisitRefused(env, st, BlockedConcurrency);
  }

  lemma DropIsRefused(env: Setting, c: Crowd, st: State, m: nat)
    requires CrowdEnv(env, c) && Round(st, c, m) && 64 - c.drops <= m < 64
    ensures KindOf(env, st) == Refused(BlockedConcurrency)
    ensures DeficitOf(Paid(env, st).deficits, c.y) == Times(65 - c.drops, CrowdQuantum(c))
    ensures Paid(env, st) == st.(deficits := Paid(env, st).deficits, quanta := Paid(env, st).quanta)
  {
    var queue := CrowdTasks(c)[m+c.drops-63..];
    TimesNext(64 - c.drops, CrowdQuantum(c));
    assert env.order[1] == Project(c.y, Trusted, c.weight);
    hide Times, Quantum;
    var t := queue[0];
    assert t == CrowdTask(c, m + c.drops - 63) && t.id in env.routeByTask;
    assert RouteFor(c, t.id) == Route("busy", "account");
    assert !Clashes(st.scopes, t, false);
    assert Refusal(env, st, t) == Some(BlockedConcurrency);
    hide Refusal, CrowdTasks, RouteFor;
  }

  lemma IdleVisit(leq: Collation, c: Crowd, st: State, m: nat)
    requires ValidCrowd(c) && leq(c.x, c.y) && HalfRound(st, c, m)
    ensures var env := SettingOf(leq, Crowded(c));
            st.cursor < |env.order| && Continues(env, st) && Round(Visit(env, st), c, m + 1)
  {
    var env := SettingOf(leq, Crowded(c));
    CrowdSetting(leq, c);
    hide SettingOf, CrowdTasks;
    QueueIsWaiting(st.queues, c.y);
    assert KindOf(env, st) == Vacant;
    VisitVacant(env, st);
    hide Visit, KindOf;
  }

  lemma {:induction false} CrowdRuns(leq: Collation, c: Crowd, st: State, m: nat)
    requires ValidCrowd(c) && leq(c.x, c.y) && Round(st, c, m) && InRange(SettingOf(leq, Crowded(c)), st)
    ensures Round(Run(SettingOf(leq, Crowded(c)), st), c, 64)
    decreases 64 - m
  {
    hide Visit, SettingOf, Crowded, CrowdTasks;
    var env := SettingOf(leq, Crowded(c));
    CrowdSetting(leq, c);
    if m == 64 {
    } else {
      CrowdRound(leq, c, st, m);
      hide Round, Continues;
      var mid := Visit(env, st);
      OneVisit(env, st);
      OneVisit(env, mid);
      CrowdRuns(leq, c, Visit(env, mid), m + 1);
    }
  }

  lemma OneVisit(env: Setting, st: State)
    requires env.order != [] && st.cursor < |env.order| && Continues(env, st)
    ensures Run(env, st) == Run(env, Visit(env, st))
  {
  }

  /** With one more admitted task of the other project than it loses, the call ends with one of two slots free and
      one task left that the very next visit would select; the decision blocks it. */
  lemma CrowdStarves(leq: Collation, c: Crowd)
    requires ValidCrowd(c) && leq(c.x, c.y)
    ensures var snap, end := Crowded(c), Final(leq, Crowded(c));
            var env := SettingOf(leq, snap);
            && AtMost(Initial(leq, snap), c.drops + 1) && DistinctProjects(snap.projects) && NonNegative(snap.deficits)
            && |end.selected| == 1 < env.slots && QueueOf(end.queues, c.y) == [CrowdTask(c, c.drops + 1)]
            && end.cursor < |env.order| && KindOf(env, end) == Selects
            && Name(c.drops + 1) in Decide(leq, snap).blocked
            && Decide(leq, snap).blocked[Name(c.drops + 1)] == BlockedConcurrency
  {
    hide Run, Initial, Visit, Round, Crowded, SettingOf, CrowdWaits, Continues, KindOf, BlockRest, AtMost;
    var snap := Crowded(c);
    var env, start := SettingOf(leq, snap), Initial(leq, snap);
    CrowdSetting(leq, c);
    CrowdBegins(leq, c);
    CrowdStarts(leq, c, start);
    OneVisit(env, start);
    CrowdRuns(leq, c, Visit(env, start), 0);
    CrowdLeavesOne(env, c, Final(leq, snap));
    CrowdIsSmall(c, start);
  }

  lemma CrowdLeavesOne(env: Setting, c: Crowd, end: State)
    requires CrowdEnv(env, c) && Round(end, c, 64)
    ensures |end.selected| == 1 && QueueOf(end.queues, c.y) == [CrowdTask(c, c.drops + 1)]
    ensures end.cursor < |env.order| && KindOf(env, end) == Selects
    ensures Name(c.drops + 1) in BlockRest(end.queues, end.blocked)
            && BlockRest(end.queues, end.blocked)[Name(c.drops + 1)] == BlockedConcurrency
  {
    var t := CrowdTask(c, c.drops + 1);
    assert CrowdTasks(c)[c.drops + 1..] == [t];
    assert t.id in env.routeByTask && RouteFor(c, t.id) == Route("idle", "account");
    assert !Clashes(end.scopes, t, false);
    assert "busy" != "idle" by { assert "busy"[0] != "idle"[0]; }
    assert Refusal(env, end, t) == None;
    hide Refusal, CrowdTasks, RouteFor;
    assert end.queues[c.y][0] == t;
    assert t.id in QueuedIds(end.queues);
  }

  lemma CrowdIsSmall(c: Crowd, start: State)
    requires ValidCrowd(c) && CrowdWaits(start, c)
    ensures AtMost(start, c.drops + 1) && DistinctProjects(Crowded(c).projects) && NonNegative(Crowded(c).deficits)
  {
    hide CrowdTask;
  }

  // -------------------------------------------------------- the thresholds

  /** The number of visits that cannot pay, found by counting up. */
  lemma {:induction false} FindPoor(quantum: real, n: nat) returns (poor: nat)
    requires quantum >= 0.2 && n <= 29 && Times(n, quantum) < 6.0
    ensures poor <= 29 && Times(poor, quantum) < 6.0 <= Times(poor + 1, quantum)
    decreases 29 - n
  {
    if Times(n + 1, quantum) >= 6.0 {
      poor := n;
    } else {
      assert n < 29 by {
        if n == 29 {
          ThirtySuffice(quantum);
        }
      }
      poor := FindPoor(quantum, n + 1);
    }
  }

  lemma ThirtySuffice(quantum: real)
    requires quantum >= 0.2
    ensures Times(30, quantum) >= 6.0
  {
  }

  lemma CrowdExists(x: string, y: string, weight: Weight) returns (c: Crowd)
    requires x != y
    ensures ValidCrowd(c) && c.x == x && c.y == y && c.weight == weight
  {
    var quantum := Quantum(Project(y, Trusted, weight));
    assert Times(0, quantum) == 0.0;
    var poor := FindPoor(quantum, 0);
    c := Crowd(x, y, weight, 64 - poor);
  }

  /** The exact limit for each weight: k admitted tasks are protected if and only if 65 - k quanta
      pay for the dearest task. */
  lemma WeightThreshold(leq: Collation, weight: Weight, k: nat)
    requires TotalOrder(leq)
    ensures Protects(leq, weight, k) <==> Times(65 - k, 2.0 * Clamped(weight)) >= 6.0
  {
    hide Final, Initial, SettingOf, NonNegative, DistinctProjects, Times;
    if Times(65 - k, 2.0 * Clamped(weight)) >= 6.0 {
      forall snap: Snapshot, p: Project
        | DistinctProjects(snap.projects) && NonNegative(snap.deficits) && p in snap.projects && p.weight == weight
          && |QueueOf(Initial(leq, snap).queues, p.id)| <= k
        ensures IsServed(leq, snap, p)
      {
        QuantumIsPositive(p);
        FewAreServed(leq, snap, p, k);
      }
    } else {
      hide Protects;
      var x, y := TwoNames(leq);
      var c := CrowdExists(x, y, weight);
      QuantumIsPositive(Project(y, Trusted, weight));
      if k <= c.drops {
        TimesOrder(65 - c.drops, 65 - k, CrowdQuantum(c));
      }
      CrowdRefutes(leq, c, k);
    }
  }

  lemma CrowdRefutes(leq: Collation, c: Crowd, k: nat)
    requires ValidCrowd(c) && leq(c.x, c.y) && k > c.drops
    ensures !Protects(leq, c.weight, k)
  {
    hide Final, Initial, SettingOf, NonNegative, DistinctProjects, ValidCrowd, CrowdTask;
    CrowdStarves(leq, c);
    var snap := Crowded(c);
    var p := snap.projects[1];
    assert p in snap.projects && p.weight == c.weight && p.id == c.y;
    hide Crowded;
    assert !IsServed(leq, snap, p);
  }

  lemma FewAreServed(leq: Collation, snap: Snapshot, p: Project, k: nat)
    requires DistinctProjects(snap.projects) && NonNegative(snap.deficits) && p in snap.projects
    requires |QueueOf(Initial(leq, snap).queues, p.id)| <= k && Times(65 - k, Quantum(p)) >= 6.0
    ensures IsServed(leq, snap, p)
  {
    hide Final, SettingOf, NonNegative, DistinctProjects, Times, Quantum;
    WorkIsConservedByWeight(leq, snap, p);
    var dropped := Kept(Initial(leq, snap), p.id) - Kept(Final(leq, snap), p.id);
    hide Initial;
    if QueueOf(Final(leq, snap).queues, p.id) != [] && Exhausted(Quantum(p), dropped) {
      assert dropped < k;
      QuantumIsPositive(p);
      TimesOrder(65 - k, 64 - dropped, Quantum(p));
    }
  }

  lemma QuantumIsPositive(p: Project)
    ensures Quantum(p) == 2.0 * Clamped(p.weight) && Quantum(p) >= 0.2
  {
  }

  lemma TwoNames(leq: Collation) returns (x: string, y: string)
    requires TotalOrder(leq)
    ensures x != y && leq(x, y)
  {
    x, y := if leq("a", "b") then "a" else "b", if leq("a", "b") then "b" else "a";
    assert "a" != "b" by { assert "a"[0] != "b"[0]; }
  }

  /** At most k admitted tasks a project guarantee that work is conserved, whatever the weights, if
      and only if k is at most 35. */
  lemma ConservationThreshold(leq: Collation, k: nat)
    requires TotalOrder(leq)
    ensures Conserves(leq, k) <==> k <= 35
  {
    hide Final, Initial, SettingOf, NonNegative, DistinctProjects;
    if k <= 35 {
      forall snap: Snapshot | DistinctProjects(snap.projects) && NonNegative(snap.deficits)
          && AtMost(Initial(leq, snap), k)
        ensures AllServed(leq, snap)
      {
        ShortQueuesAreServed(leq, snap);
      }
    } else {
      var x, y := TwoNames(leq);
      var c := Crowd(x, y, Finite(0.1), 35);
      assert ValidCrowd(c);
      CrowdStarves(leq, c);
      StarvedIsNotServed(leq, c);
      assert AtMost(Initial(leq, Crowded(c)), k);
    }
  }

  lemma StarvedIsNotServed(leq: Collation, c: Crowd)
    requires |Final(leq, Crowded(c)).selected| < SettingOf(leq, Crowded(c)).slots
    requires QueueOf(Final(leq, Crowded(c)).queues, c.y) != []
    ensures !AllServed(leq, Crowded(c))
  {
  }
}
