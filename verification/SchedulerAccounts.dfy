/** Deficit accounting and work conservation of the scheduling loop. */
module SchedulerAccounts {
  import opened Orders
  import opened Scheduler
  import opened SchedulerPartition
  import opened SchedulerRuns
  import opened SchedulerSafety
  import opened Wrappers

  // ---------------------------------------------------------- accounting

  /** Cost of the selected tasks of project p. */
  function SpentOn(selected: seq<Task>, p: string): real {
    if selected == [] then 0.0
    else
      var t := selected[|selected|-1];
      SpentOn(selected[..|selected|-1], p) + if t.projectId == p then Cost(t.effort) else 0.0
  }

  lemma SpentOnSnoc(selected: seq<Task>, t: Task, p: string)
    ensures SpentOn(selected + [t], p) == SpentOn(selected, p) + if t.projectId == p then Cost(t.effort) else 0.0
  {
    assert (selected + [t])[..|selected|] == selected;
  }

  ghost predicate DistinctOrder(order: seq<Project>) {
    forall i, j :: 0 <= i < |order| && 0 <= j < |order| && order[i].id == order[j].id ==> i == j
  }

  /** One project's books: its deficit, the quanta it was given, the cost of its selected tasks. */
  datatype Books = Books(deficit: real, quanta: nat, spent: real)

  function BooksOf(st: State, id: string): Books {
    Books(DeficitOf(st.deficits, id), Count(st.quanta, id), SpentOn(st.selected, id))
  }

  ghost predicate BalancedBooks(quantum: real, start: real, b: Books) {
    && b.deficit == start + quantum * (b.quanta as real) - b.spent
    && 0.0 <= b.deficit && (b.deficit <= start || b.deficit < 6.0 + quantum)
  }

  ghost predicate Balanced(p: Project, start: real, st: State) {
    BalancedBooks(Quantum(p), start, BooksOf(st, p.id))
  }

  /** A visit to the head of the queue: a quantum when the head is not affordable, and the cost
      when it is selected. */
  function Served(quantum: real, b: Books, cost: real, picks: bool): Books {
    var paid := if b.deficit < cost then Books(b.deficit + quantum, b.quanta + 1, b.spent) else b;
    if picks then Books(paid.deficit - cost, paid.quanta, paid.spent + cost) else paid
  }

  lemma ServedStaysBalanced(quantum: real, start: real, b: Books, cost: real, picks: bool)
    requires BalancedBooks(quantum, start, b) && 1.0 <= cost <= 6.0 && quantum > 0.0
    requires picks ==> b.deficit >= cost || b.deficit + quantum >= cost
    ensures BalancedBooks(quantum, start, Served(quantum, b, cost, picks))
  {
    assert quantum * ((b.quanta + 1) as real) == quantum * (b.quanta as real) + quantum;
  }

  lemma BooksWhenSelecting(env: Setting, st: State, id: string)
    requires st.cursor < |env.order| && Homogeneous(st.queues) && KindOf(env, st) == Selects
    ensures HeadQueue(env, st) != []
    ensures var p, cost := Visited(env, st), Cost(HeadQueue(env, st)[0].effort);
            && BooksOf(Visit(env, st), id)
               == (if p.id == id then Served(Quantum(p), BooksOf(st, id), cost, true) else BooksOf(st, id))
            && (DeficitOf(st.deficits, p.id) >= cost || DeficitOf(st.deficits, p.id) + Quantum(p) >= cost)
  {
    hide Visit, KindOf, Quantum;
    WhenSelecting(env, st);
    VisitHomogeneous(env, st);
    MoneyAfter(env, st);
    SpentOnSnoc(st.selected, HeadQueue(env, st)[0], id);
  }

  lemma BooksWhenPassing(env: Setting, st: State, id: string)
    requires st.cursor < |env.order| && KindOf(env, st) != Selects
    ensures var p, queue := Visited(env, st), HeadQueue(env, st);
            BooksOf(Visit(env, st), id)
            == if p.id != id || queue == [] || KindOf(env, st) == Full then BooksOf(st, id)
               else Served(Quantum(p), BooksOf(st, id), Cost(queue[0].effort), false)
  {
    hide Visit, SpentOn, Cost, Quantum, HeadQueue;
    WhenPassing(env, st);
    if HeadQueue(env, st) == [] || KindOf(env, st) == Full {
      NoMoneyAfter(env, st);
    } else {
      MoneyAfter(env, st);
    }
  }

  lemma VisitKeepsBalance(env: Setting, p: Project, start: real, st: State)
    requires st.cursor < |env.order| && (Visited(env, st).id == p.id ==> Visited(env, st) == p)
    requires Homogeneous(st.queues) && Balanced(p, start, st)
    ensures Homogeneous(Visit(env, st).queues) && Balanced(p, start, Visit(env, st))
  {
    VisitHomogeneous(env, st);
    var picks := KindOf(env, st) == Selects;
    if picks {
      BooksWhenSelecting(env, st, p.id);
    } else {
      BooksWhenPassing(env, st, p.id);
    }
    if p.id == Visited(env, st).id && HeadQueue(env, st) != [] {
      ServedStaysBalanced(Quantum(p), start, BooksOf(st, p.id), Cost(HeadQueue(env, st)[0].effort), picks);
    }
  }

  lemma {:induction false} StartingDeficitOf(snap: Snapshot, p: Project)
    requires p in snap.projects
    ensures p.id in StartingDeficits(snap)
    ensures StartingDeficits(snap)[p.id] == if p.id in snap.deficits then snap.deficits[p.id] else 0.0
  {
  }

  lemma OrderFacts(leq: Collation, snap: Snapshot)
    requires DistinctProjects(snap.projects)
    ensures DistinctOrder(ProjectOrder(leq, snap.projects)) && |ProjectOrder(leq, snap.projects)| == |snap.projects|
    ensures forall p :: p in ProjectOrder(leq, snap.projects) <==> p in snap.projects
  {
    var byId := (x: Project, y: Project) => leq(x.id, y.id);
    var order := Sort(snap.projects, byId);
    SortPermutes(snap.projects, byId);
    forall p ensures p in order <==> p in snap.projects {
      SortMembers(snap.projects, byId, p);
    }
    assert NoDup(snap.projects);
    NoDupFromMultiset(snap.projects, order);
    forall i, j | 0 <= i < |order| && 0 <= j < |order| && order[i].id == order[j].id ensures i == j {
      assert order[i] in snap.projects && order[j] in snap.projects;
      assert order[i] == order[j];
    }
  }

  /** After the run: deficit = start + quantum x quanta - cost of what was selected; it is never
      negative, and a deficit that starts below 6 + quantum stays there. */
  lemma DeficitsAreAccounted(leq: Collation, snap: Snapshot, p: Project)
    requires DistinctProjects(snap.projects) && p in snap.projects
    requires p.id in snap.deficits ==> snap.deficits[p.id] >= 0.0
    ensures Balanced(p, StartingDeficits(snap)[p.id], Final(leq, snap))
  {
    var env := SettingOf(leq, snap);
    var start := StartingDeficits(snap)[p.id];
    var holds := (s: State) => Homogeneous(s.queues) && Balanced(p, start, s);
    OrderFacts(leq, snap);
    AdmitHomogeneous(snap, LoadOf(snap.activeRuns), StableOrder(leq, snap.readyTasks));
    forall s | holds(s) && Continues(env, s) && s.cursor < |env.order| ensures holds(Visit(env, s)) {
      assert p in env.order;
      VisitKeepsBalance(env, p, start, s);
    }
    RunInduction(env, Initial(leq, snap), holds);
  }

  // --------------------------------------------------- work conservation

  /** Tasks of project id still queued or already selected; what is missing has been dropped. */
  function Kept(st: State, id: string): nat {
    |QueueOf(st.queues, id)| + |SelectedOf(st.selected, id)|
  }

  /** From cursor s, after q full rounds and r further moves over n projects. */
  predicate Rotation(n: nat, cursor: nat, s: nat, q: nat, r: nat) {
    s < n && r < n && cursor == if s + r < n then s + r else s + r - n
  }

  /** How often index i has been left behind by those moves. */
  function Turns(n: nat, s: nat, q: nat, r: nat, i: nat): nat {
    q + if s <= i < s + r || i + n < s + r then 1 else 0
  }

  lemma RotationStep(n: nat, cursor: nat, s: nat, q: nat, r: nat)
    requires Rotation(n, cursor, s, q, r)
    ensures var q', r' := if r + 1 == n then q + 1 else q, if r + 1 == n then 0 else r + 1;
            && Rotation(n, Advance(cursor, n), s, q', r')
            && q' * n + r' == q * n + r + 1
            && forall i :: 0 <= i < n ==> Turns(n, s, q', r', i) == Turns(n, s, q, r, i) + if i == cursor then 1 else 0
  {
    if r + 1 == n {
      assert (q + 1) * n == q * n + n;
    }
  }

  /** What a number of quanta adds up to. */
  function Times(n: int, quantum: real): real {
    n as real * quantum
  }

  lemma TimesNext(n: int, quantum: real)
    ensures Times(n + 1, quantum) == Times(n, quantum) + quantum
  {
    Distribute(n as real, quantum);
  }

  lemma Distribute(a: real, b: real)
    ensures (a + 1.0) * b == a * b + b
  {
  }

  lemma {:induction false} TimesOrder(m: int, n: int, quantum: real)
    requires m <= n && quantum >= 0.0
    ensures Times(m, quantum) <= Times(n, quantum)
    decreases n - m
  {
    hide Times;
    if m == n {
    } else {
      TimesOrder(m + 1, n, quantum);
      TimesNext(m, quantum);
    }
  }

  /** A deficit holds a quantum for each of a number of waits, and these do not yet cover the
      dearest task. */
  predicate Saved(quantum: real, waits: int, deficit: real) {
    Times(waits, quantum) < 6.0 && deficit >= Times(waits, quantum)
  }

  lemma NothingSaved(quantum: real, waits: int, deficit: real)
    requires quantum > 0.0 && waits <= 0 && deficit >= 0.0
    ensures Saved(quantum, waits, deficit)
  {
    TimesOrder(waits, 0, quantum);
  }

  lemma OneMoreSaved(quantum: real, waits: int, deficit: real)
    requires Saved(quantum, waits, deficit) && deficit + quantum < 6.0
    ensures Saved(quantum, waits + 1, deficit + quantum)
  {
    hide Times;
    TimesNext(waits, quantum);
  }

  /** The project at index i has been visited Turns times since the last selection; each of
      these visits either dropped a task or added a quantum to an insufficient deficit. */
  ghost predicate Patient(env: Setting, kept0: nat, st: State, s: nat, q: nat, r: nat, i: nat)
    requires i < |env.order|
  {
    var id := env.order[i].id;
    var waits := Turns(|env.order|, s, q, r, i) - (kept0 - Kept(st, id));
    && DeficitOf(st.deficits, id) >= 0.0
    && Kept(st, id) <= kept0
    && (QueueOf(st.queues, id) != [] ==>
          Saved(Quantum(env.order[i]), waits, DeficitOf(st.deficits, id)))
  }

  ghost predicate Streak(env: Setting, start: State, st: State, s: nat, q: nat, r: nat) {
    && Homogeneous(st.queues)
    && Rotation(|env.order|, st.cursor, s, q, r) && st.idle == q * |env.order| + r
    && forall i :: 0 <= i < |env.order| ==> Patient(env, Kept(start, env.order[i].id), st, s, q, r, i)
  }

  lemma KeptAfter(env: Setting, st: State, id: string)
    requires st.cursor < |env.order| && Homogeneous(st.queues)
    ensures var kind, next := KindOf(env, st), Visit(env, st);
            && Kept(next, id) == Kept(st, id) - (if id == Visited(env, st).id
                                                 then if kind == Full then |HeadQueue(env, st)|
                                                 else if kind.Refused? then 1 else 0
                                                 else 0)
            && (id != Visited(env, st).id ==> QueueOf(next.queues, id) == QueueOf(st.queues, id))
            && (id == Visited(env, st).id ==> QueueOf(next.queues, id) == QueueAfter(env, st))
  {
    QueuesAfter(env, st, KindOf(env, st));
    if KindOf(env, st) == Selects {
      WhenSelecting(env, st);
      VisitHomogeneous(env, st);
      SelectedOfSnoc(st.selected, HeadQueue(env, st)[0], id);
    } else {
      WhenPassing(env, st);
    }
  }

  lemma PatientAfterPassing(env: Setting, kept0: nat, st: State, s: nat, q: nat, r: nat, q': nat, r': nat, i: nat)
    requires st.cursor < |env.order| && i < |env.order| && DistinctOrder(env.order)
    requires KindOf(env, st) != Selects && Homogeneous(st.queues) && Patient(env, kept0, st, s, q, r, i)
    requires Turns(|env.order|, s, q', r', i) == Turns(|env.order|, s, q, r, i) + if i == st.cursor then 1 else 0
    ensures Patient(env, kept0, Visit(env, st), s, q', r', i)
  {
    assert Quantum(env.order[i]) > 0.0;
    hide Visit, Quantum, Saved, Turns, Kept, Refusal;
    var p, queue, next := env.order[i], HeadQueue(env, st), Visit(env, st);
    KeptAfter(env, st, p.id);
    BooksWhenPassing(env, st, p.id);
    if i == st.cursor && queue != [] && KindOf(env, st) != Full {
      var d, d' := DeficitOf(st.deficits, p.id), DeficitOf(next.deficits, p.id);
      var waits := Turns(|env.order|, s, q, r, i) - (kept0 - Kept(st, p.id));
      MoneyAfter(env, st);
      CostRange(queue[0]);
      if KindOf(env, st) == Unaffordable {
        OneMoreSaved(Quantum(p), waits, d);
      } else {
        SavedAtLeast(Quantum(p), waits, d, d');
      }
    } else if i != st.cursor {
      assert p.id != Visited(env, st).id;
    }
  }

  lemma SavedAtLeast(quantum: real, waits: int, deficit: real, more: real)
    requires Saved(quantum, waits, deficit) && more >= deficit
    ensures Saved(quantum, waits, more)
  {
    hide Times;
  }

  lemma CostRange(t: Task)
    ensures 1.0 <= Cost(t.effort) <= 6.0
  {
  }

  lemma PatientAfterSelecting(env: Setting, kept0: nat, st: State, s: nat, q: nat, r: nat, s': nat, i: nat)
    requires st.cursor < |env.order| && i < |env.order| && s' < |env.order|
    requires KindOf(env, st) == Selects && Homogeneous(st.queues) && Patient(env, kept0, st, s, q, r, i)
    ensures Patient(env, kept0, Visit(env, st), s', 0, 0, i)
  {
    hide Visit, Saved, Kept, KindOf;
    var p, next := env.order[i], Visit(env, st);
    KeptAfter(env, st, p.id);
    BooksWhenSelecting(env, st, p.id);
    NothingSaved(Quantum(p), -(kept0 - Kept(next, p.id)), DeficitOf(next.deficits, p.id));
  }

  lemma VisitKeepsStreak(env: Setting, start: State, st: State, s: nat, q: nat, r: nat)
    returns (s': nat, q': nat, r': nat)
    requires st.cursor < |env.order| && DistinctOrder(env.order) && Streak(env, start, st, s, q, r)
    ensures Streak(env, start, Visit(env, st), s', q', r')
  {
    hide Visit, KindOf, Patient;
    var n, next := |env.order|, Visit(env, st);
    VisitHomogeneous(env, st);
    if KindOf(env, st) == Selects {
      s', q', r' := next.cursor, 0, 0;
      WhenSelecting(env, st);
      forall i | 0 <= i < n ensures Patient(env, Kept(start, env.order[i].id), next, s', 0, 0, i) {
        PatientAfterSelecting(env, Kept(start, env.order[i].id), st, s, q, r, s', i);
      }
    } else {
      WhenPassing(env, st);
      RotationStep(n, st.cursor, s, q, r);
      s', q', r' := s, if r + 1 == n then q + 1 else q, if r + 1 == n then 0 else r + 1;
      forall i | 0 <= i < n ensures Patient(env, Kept(start, env.order[i].id), next, s', q', r', i) {
        PatientAfterPassing(env, Kept(start, env.order[i].id), st, s, q, r, q', r', i);
      }
    }
  }

  ghost predicate InStreak(env: Setting, start: State, st: State) {
    exists s, q, r :: Streak(env, start, st, s, q, r)
  }

  lemma MulAtLeast(d: nat, n: nat)
    requires d >= 1
    ensures d * n >= n
  {
  }

  lemma ManyRounds(n: nat, q: nat, r: nat, idle: nat)
    requires r < n && idle == q * n + r && idle >= 64 * n
    ensures q >= 64
  {
    assert (64 - q) * n == 64 * n - q * n;
    if q < 64 {
      MulAtLeast(64 - q, n);
    }
  }

  ghost predicate NonNegative(deficits: map<string, real>) {
    forall id :: id in deficits ==> deficits[id] >= 0.0
  }

  lemma InitialSavings(leq: Collation, snap: Snapshot)
    requires NonNegative(snap.deficits)
    ensures forall p: Project :: DeficitOf(Initial(leq, snap).deficits, p.id) >= 0.0
    ensures forall p: Project :: Saved(Quantum(p), 0, DeficitOf(Initial(leq, snap).deficits, p.id))
  {
    hide Admit, LoadOf, StableOrder, Saved;
    var deficits := Initial(leq, snap).deficits;
    forall p: Project
      ensures DeficitOf(deficits, p.id) >= 0.0 && Saved(Quantum(p), 0, DeficitOf(deficits, p.id))
    {
      assert deficits == StartingDeficits(snap);
      hide Initial;
      NothingSaved(Quantum(p), 0, DeficitOf(deficits, p.id));
    }
  }

  lemma InitialStreak(leq: Collation, snap: Snapshot)
    requires NonNegative(snap.deficits) && snap.projects != []
    ensures var env := SettingOf(leq, snap); InStreak(env, Initial(leq, snap), Initial(leq, snap))
  {
    hide Admit, LoadOf, StableOrder, Saved, Quantum;
    var env, start := SettingOf(leq, snap), Initial(leq, snap);
    InitialSavings(leq, snap);
    AdmitHomogeneous(snap, LoadOf(snap.activeRuns), StableOrder(leq, snap.readyTasks));
    SortPermutes(snap.projects, (x: Project, y: Project) => leq(x.id, y.id));
    assert start.cursor < |env.order|;
    hide Homogeneous, Initial, Kept;
    assert Streak(env, start, start, start.cursor, 0, 0);
  }

  lemma {:induction false} QueuedProjectsExist(snap: Snapshot, load: Load, tasks: seq<Task>, id: string)
    requires QueueOf(Admit(snap, load, tasks).queues, id) != []
    ensures exists p :: p in snap.projects && p.id == id
  {
    var t := tasks[|tasks|-1];
    if Obstacle(snap, load, t) == None && t.projectId == id {
      ProjectByIdFinds(snap.projects, id);
    } else {
      QueuedProjectsExist(snap, load, tasks[..|tasks|-1], id);
    }
  }

  lemma FinalStreak(leq: Collation, snap: Snapshot)
    requires DistinctProjects(snap.projects) && NonNegative(snap.deficits) && snap.projects != []
    ensures var env := SettingOf(leq, snap); InStreak(env, Initial(leq, snap), Final(leq, snap))
  {
    var env, start := SettingOf(leq, snap), Initial(leq, snap);
    OrderFacts(leq, snap);
    InitialStreak(leq, snap);
    var holds := (st: State) => InStreak(env, start, st);
    forall st | holds(st) && Continues(env, st) && st.cursor < |env.order| ensures holds(Visit(env, st)) {
      var s, q, r :| Streak(env, start, st, s, q, r);
      var s', q', r' := VisitKeepsStreak(env, start, st, s, q, r);
    }
    RunInduction(env, start, holds);
  }

  lemma ExhaustedPatience(env: Setting, start: State, end: State, i: nat)
    requires InStreak(env, start, end) && end.idle >= MaxIdle(env) && i < |env.order|
    requires QueueOf(end.queues, env.order[i].id) != []
    ensures Exhausted(Quantum(env.order[i]), Kept(start, env.order[i].id) - Kept(end, env.order[i].id))
  {
    hide Kept, Saved, Homogeneous, Exhausted;
    var p := env.order[i];
    var s, q, r :| Streak(env, start, end, s, q, r);
    ManyRounds(|env.order|, q, r, end.idle);
    assert Patient(env, Kept(start, p.id), end, s, q, r, i);
    LongWaitExhausts(Quantum(p), Turns(|env.order|, s, q, r, i), Kept(start, p.id) - Kept(end, p.id),
                     DeficitOf(end.deficits, p.id));
  }

  lemma LongWaitExhausts(quantum: real, turns: int, dropped: int, deficit: real)
    requires quantum > 0.0 && turns >= 64 && Saved(quantum, turns - dropped, deficit)
    ensures Exhausted(quantum, dropped)
  {
    hide Times;
    TimesOrder(64 - dropped, turns - dropped, quantum);
  }

  /** Of the 64 visits that a project is owed, those that drop no task do not save enough for the
      dearest one. */
  predicate Exhausted(quantum: real, dropped: int) {
    Times(64 - dropped, quantum) < 6.0
  }

  lemma ExhaustedMeansMany(quantum: real, dropped: int)
    requires Exhausted(quantum, dropped) && quantum >= 0.2
    ensures dropped >= 35
  {
    if dropped < 35 {
      TimesOrder(30, 64 - dropped, quantum);
    }
  }

  /** The loop may end with free slots and a task of project p still queued only if it has dropped
      so many tasks of p that the other visits it owes p would not pay for the dearest task. */
  lemma WorkIsConservedByWeight(leq: Collation, snap: Snapshot, p: Project)
    requires DistinctProjects(snap.projects) && NonNegative(snap.deficits) && p in snap.projects
    ensures var end, start := Final(leq, snap), Initial(leq, snap);
            |end.selected| >= SettingOf(leq, snap).slots || QueueOf(end.queues, p.id) == []
            || Exhausted(Quantum(p), Kept(start, p.id) - Kept(end, p.id))
  {
    hide Kept, Quantum, Exhausted, Run, InStreak, DistinctOrder;
    var env, start, end := SettingOf(leq, snap), Initial(leq, snap), Final(leq, snap);
    if |end.selected| < env.slots && QueueOf(end.queues, p.id) != [] {
      OrderFacts(leq, snap);
      assert p in env.order;
      var i :| 0 <= i < |env.order| && env.order[i] == p;
      FinalStreak(leq, snap);
      RunStops(env, start);
      assert p.id in end.queues && Waiting(end.queues);
      ExhaustedPatience(env, start, end, i);
    }
  }

  /** Whatever the weight, that takes at least 35 dropped tasks of the project. */
  lemma WorkIsConserved(leq: Collation, snap: Snapshot, id: string)
    requires DistinctProjects(snap.projects) && NonNegative(snap.deficits)
    ensures var end, start := Final(leq, snap), Initial(leq, snap);
            |end.selected| >= SettingOf(leq, snap).slots || QueueOf(end.queues, id) == []
            || Kept(start, id) - Kept(end, id) >= 35
  {
    hide Kept, Exhausted, Run;
    var env, start, end := SettingOf(leq, snap), Initial(leq, snap), Final(leq, snap);
    if |end.selected| < env.slots && QueueOf(end.queues, id) != [] {
      OrderFacts(leq, snap);
      QueueShrinks(env, start, id);
      QueuedProjectsExist(snap, LoadOf(snap.activeRuns), StableOrder(leq, snap.readyTasks), id);
      var p :| p in snap.projects && p.id == id;
      WorkIsConservedByWeight(leq, snap, p);
      ExhaustedMeansMany(Quantum(p), Kept(start, id) - Kept(end, id));
    }
  }

  lemma QueueShrinks(env: Setting, start: State, id: string)
    requires InRange(env, start)
    ensures |QueueOf(Run(env, start).queues, id)| <= |QueueOf(start.queues, id)|
  {
    var holds := (st: State) => |QueueOf(st.queues, id)| <= |QueueOf(start.queues, id)|;
    forall st | holds(st) && Continues(env, st) && st.cursor < |env.order| ensures holds(Visit(env, st)) {
      QueuesAfter(env, st, KindOf(env, st));
    }
    RunInduction(env, start, holds);
  }

  /** So with at most 35 admissible tasks a project, the loop stops only when every slot is
      filled or every queue is empty. */
  lemma ShortQueuesAreServed(leq: Collation, snap: Snapshot)
    requires DistinctProjects(snap.projects) && NonNegative(snap.deficits)
    requires forall id :: |QueueOf(Initial(leq, snap).queues, id)| <= 35
    ensures |Final(leq, snap).selected| >= snap.limits.globalMaxRuns - |snap.activeRuns|
            || forall id :: QueueOf(Final(leq, snap).queues, id) == []
  {
    forall id ensures |Final(leq, snap).selected| >= SettingOf(leq, snap).slots
        || QueueOf(Final(leq, snap).queues, id) == [] {
      WorkIsConserved(leq, snap, id);
    }
  }
}
