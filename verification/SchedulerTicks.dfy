/** Repeated scheduling calls, each fed the deficits and the cursor of the one before. */
module SchedulerTicks {
  import opened Orders
  import opened Scheduler
  import opened SchedulerAccounts
  import opened SchedulerFairness
  import opened SchedulerPartition
  import opened SchedulerRuns
  import opened SchedulerSafety
  import opened Wrappers

  /** The second call continues where the first stopped, on the same projects. */
  ghost predicate Continued(leq: Collation, first: Snapshot, second: Snapshot) {
    var d := Decide(leq, first);
    second.projects == first.projects && second.deficits == d.deficits && second.cursorProjectId == d.cursorProjectId
  }

  ghost predicate Chained(leq: Collation, ticks: seq<Snapshot>) {
    forall k :: 0 <= k < |ticks| - 1 ==> Continued(leq, ticks[k], ticks[k+1])
  }

  function TotalSpent(leq: Collation, ticks: seq<Snapshot>, id: string): real {
    if ticks == [] then 0.0
    else TotalSpent(leq, ticks[..|ticks|-1], id) + SpentOn(Final(leq, ticks[|ticks|-1]).selected, id)
  }

  function TotalQuanta(leq: Collation, ticks: seq<Snapshot>, id: string): nat {
    if ticks == [] then 0
    else TotalQuanta(leq, ticks[..|ticks|-1], id) + Count(Final(leq, ticks[|ticks|-1]).quanta, id)
  }

  function StartingDeficit(snap: Snapshot, id: string): real {
    if id in snap.deficits then snap.deficits[id] else 0.0
  }

  // ---------------------------------------------------------- accounting

  lemma BooksCompose(quantum: real, start: real, first: Books, second: Books)
    requires BalancedBooks(quantum, start, first) && BalancedBooks(quantum, first.deficit, second)
    ensures BalancedBooks(quantum, start,
                          Books(second.deficit, first.quanta + second.quanta, first.spent + second.spent))
  {
    assert quantum * ((first.quanta + second.quanta) as real)
           == quantum * (first.quanta as real) + quantum * (second.quanta as real);
  }

  lemma {:induction false} ChainedPrefix(leq: Collation, ticks: seq<Snapshot>)
    requires Chained(leq, ticks) && |ticks| > 1
    ensures Chained(leq, ticks[..|ticks|-1])
    ensures Continued(leq, ticks[|ticks|-2], ticks[|ticks|-1])
  {
    var init := ticks[..|ticks|-1];
    forall k | 0 <= k < |init| - 1 ensures Continued(leq, init[k], init[k+1]) {
      assert Continued(leq, ticks[k], ticks[k+1]);
    }
    assert Continued(leq, ticks[|ticks|-2], ticks[|ticks|-2+1]);
  }

  lemma {:induction false} SameProjects(leq: Collation, ticks: seq<Snapshot>, k: nat)
    requires Chained(leq, ticks) && k < |ticks|
    ensures ticks[k].projects == ticks[0].projects
  {
    if k == 0 {
    } else {
      assert Continued(leq, ticks[k-1], ticks[k-1+1]);
      SameProjects(leq, ticks, k - 1);
    }
  }

  ghost function TickBooks(leq: Collation, ticks: seq<Snapshot>, id: string): Books
    requires ticks != []
  {
    Books(DeficitOf(Final(leq, ticks[|ticks|-1]).deficits, id), TotalQuanta(leq, ticks, id), TotalSpent(leq, ticks, id))
  }

  lemma {:induction false} FirstBooks(leq: Collation, ticks: seq<Snapshot>, id: string)
    requires |ticks| == 1
    ensures TickBooks(leq, ticks, id) == BooksOf(Final(leq, ticks[0]), id)
  {
    assert ticks[..|ticks|-1] == [];
    assert TotalQuanta(leq, ticks[..|ticks|-1], id) == 0 && TotalSpent(leq, ticks[..|ticks|-1], id) == 0.0;
    assert ticks[|ticks|-1] == ticks[0];
  }

  lemma {:induction false} NextBooks(leq: Collation, ticks: seq<Snapshot>, id: string)
    requires |ticks| > 1
    ensures var before, now := TickBooks(leq, ticks[..|ticks|-1], id), BooksOf(Final(leq, ticks[|ticks|-1]), id);
            TickBooks(leq, ticks, id) == Books(now.deficit, before.quanta + now.quanta, before.spent + now.spent)
  {
  }

  lemma HandedOver(leq: Collation, first: Snapshot, second: Snapshot, p: Project)
    requires Continued(leq, first, second) && p in second.projects
    ensures StartingDeficits(second)[p.id] == DeficitOf(Final(leq, first).deficits, p.id)
  {
  }

  lemma {:induction false} TickKeepsBalance(leq: Collation, ticks: seq<Snapshot>, p: Project, start: real)
    requires |ticks| > 1 && Continued(leq, ticks[|ticks|-2], ticks[|ticks|-1])
    requires DistinctProjects(ticks[|ticks|-1].projects) && p in ticks[|ticks|-1].projects
    requires BalancedBooks(Quantum(p), start, TickBooks(leq, ticks[..|ticks|-1], p.id))
    ensures BalancedBooks(Quantum(p), start, TickBooks(leq, ticks, p.id))
  {
    hide Run, Initial;
    var previous, last, init := ticks[|ticks|-2], ticks[|ticks|-1], ticks[..|ticks|-1];
    assert init[|init|-1] == previous;
    var before, now := TickBooks(leq, init, p.id), BooksOf(Final(leq, last), p.id);
    HandedOver(leq, previous, last, p);
    assert StartingDeficits(last)[p.id] == before.deficit >= 0.0;
    DeficitsAreAccounted(leq, last, p);
    BooksCompose(Quantum(p), start, before, now);
    NextBooks(leq, ticks, p.id);
  }

  /** Over any number of calls: final deficit = initial + quantum x quanta - cost served, and the
      deficit stays non-negative and below 6 + quantum once it starts there. */
  lemma {:induction false} DeficitsOverTicks(leq: Collation, ticks: seq<Snapshot>, p: Project)
    requires ticks != [] && Chained(leq, ticks)
    requires DistinctProjects(ticks[0].projects) && p in ticks[0].projects && StartingDeficit(ticks[0], p.id) >= 0.0
    ensures BalancedBooks(Quantum(p), StartingDeficit(ticks[0], p.id), TickBooks(leq, ticks, p.id))
  {
    if |ticks| == 1 {
      DeficitsAreAccounted(leq, ticks[0], p);
      FirstBooks(leq, ticks, p.id);
    } else {
      var init := ticks[..|ticks|-1];
      ChainedPrefix(leq, ticks);
      assert init[0] == ticks[0];
      DeficitsOverTicks(leq, init, p);
      SameProjects(leq, ticks, |ticks| - 1);
      TickKeepsBalance(leq, ticks, p, StartingDeficit(ticks[0], p.id));
    }
  }

  /** No entry of a deficit table is negative or reaches 206. */
  ghost predicate Bounded(deficits: map<string, real>) {
    forall id :: id in deficits ==> 0.0 <= deficits[id] < 206.0
  }

  lemma DeficitKeys(leq: Collation, snap: Snapshot, id: string)
    ensures id in Final(leq, snap).deficits ==> exists p :: p in snap.projects && p.id == id
  {
    var env := SettingOf(leq, snap);
    var ids := set p | p in snap.projects :: p.id;
    var holds := (s: State) => forall k :: k in s.deficits ==> k in ids;
    forall s | holds(s) && Continues(env, s) && s.cursor < |env.order| ensures holds(Visit(env, s)) {
      OrderMembers(leq, snap);
      assert Visited(env, s).id in ids;
      VisitDeficitKeys(env, s, KindOf(env, s));
    }
    RunInduction(env, Initial(leq, snap), holds);
  }

  lemma OrderMembers(leq: Collation, snap: Snapshot)
    ensures forall p :: p in ProjectOrder(leq, snap.projects) <==> p in snap.projects
  {
    forall p ensures p in ProjectOrder(leq, snap.projects) <==> p in snap.projects {
      SortMembers(snap.projects, (x: Project, y: Project) => leq(x.id, y.id), p);
    }
  }

  lemma VisitDeficitKeys(env: Setting, st: State, kind: Kind)
    requires st.cursor < |env.order| && KindOf(env, st) == kind
    ensures forall id :: id in Visit(env, st).deficits ==> id in st.deficits || id == Visited(env, st).id
  {
    match kind
    case Vacant => VisitVacant(env, st);
    case Full => VisitFull(env, st);
    case Unaffordable => VisitUnaffordable(env, st);
    case Refused(reason) => VisitRefused(env, st, reason);
    case Selects => VisitSelects(env, st);
  }

  lemma DeficitsStayBounded(leq: Collation, snap: Snapshot)
    requires DistinctProjects(snap.projects) && Bounded(snap.deficits)
    ensures Bounded(Decide(leq, snap).deficits)
  {
    var deficits := Decide(leq, snap).deficits;
    forall id | id in deficits ensures 0.0 <= deficits[id] < 206.0 {
      DeficitKeys(leq, snap, id);
      var p :| p in snap.projects && p.id == id;
      DeficitsAreAccounted(leq, snap, p);
    }
  }

  /** Each call is fed the deficits of the one before; projects, weights and all else may change. */
  ghost predicate FedBack(leq: Collation, ticks: seq<Snapshot>) {
    && (forall k :: 0 <= k < |ticks| ==> DistinctProjects(ticks[k].projects))
    && (forall k :: 0 <= k < |ticks| - 1 ==> ticks[k+1].deficits == Decide(leq, ticks[k]).deficits)
  }

  /** Over any number of calls and whatever the weights, also when projects and weights change
      from call to call, every deficit handed over is at least 0 and below 206. */
  lemma {:induction false} DeficitsStayBoundedOverTicks(leq: Collation, ticks: seq<Snapshot>, k: nat)
    requires k < |ticks| && FedBack(leq, ticks) && Bounded(ticks[0].deficits)
    ensures Bounded(ticks[k].deficits) && Bounded(Decide(leq, ticks[k]).deficits)
  {
    hide Bounded, Decide;
    if k == 0 {
    } else {
      DeficitsStayBoundedOverTicks(leq, ticks, k - 1);
      assert ticks[k-1+1].deficits == Decide(leq, ticks[k-1]).deficits;
    }
    DeficitsStayBounded(leq, ticks[k]);
  }

  // -------------------------------------------------------- the long run

  /** Through the whole call the project has a next task and loses none. */
  ghost predicate BusyIn(leq: Collation, snap: Snapshot, id: string) {
    Busy(SettingOf(leq, snap), Initial(leq, snap), id)
  }

  /** Cost of the task with which the project enters a call. */
  function Entering(leq: Collation, snap: Snapshot, id: string): real {
    Need(Initial(leq, snap), id, 1.0)
  }

  /** With the deficit handed over, the project could afford the task it was left with but not
      the one it enters the next call with. */
  predicate FallsAsleep(leq: Collation, first: Snapshot, second: Snapshot, id: string) {
    var d := DeficitOf(Final(leq, first).deficits, id);
    Left(Final(leq, first), id) <= d < Entering(leq, second, id)
  }

  /** The reverse: it can afford the next task but could not afford the one before. */
  predicate WakesUp(leq: Collation, first: Snapshot, second: Snapshot, id: string) {
    var d := DeficitOf(Final(leq, first).deficits, id);
    Entering(leq, second, id) <= d < Left(Final(leq, first), id)
  }

  function Sleeps(leq: Collation, ticks: seq<Snapshot>, id: string): nat {
    if |ticks| < 2 then 0
    else
      var n := |ticks|;
      Sleeps(leq, ticks[..n-1], id) + if FallsAsleep(leq, ticks[n-2], ticks[n-1], id) then 1 else 0
  }

  function Wakes(leq: Collation, ticks: seq<Snapshot>, id: string): nat {
    if |ticks| < 2 then 0
    else
      var n := |ticks|;
      Wakes(leq, ticks[..n-1], id) + if WakesUp(leq, ticks[n-2], ticks[n-1], id) then 1 else 0
  }

  /** By how many quanta project a is ahead of project b. */
  function Lead(leq: Collation, ticks: seq<Snapshot>, a: string, b: string): int {
    TotalQuanta(leq, ticks, a) - TotalQuanta(leq, ticks, b)
  }

  /** How often the project fell asleep between calls, less how often it woke up. */
  function Net(leq: Collation, ticks: seq<Snapshot>, id: string): int {
    Sleeps(leq, ticks, id) - Wakes(leq, ticks, id)
  }

  /** What the calls before the last one did for a project. */
  function PastOf(leq: Collation, ticks: seq<Snapshot>, id: string): Past
    requires ticks != []
  {
    Past(TotalQuanta(leq, ticks[..|ticks|-1], id), Wakes(leq, ticks, id), Sleeps(leq, ticks, id),
         FirstPast(Initial(leq, ticks[0]), id, Left(Final(leq, ticks[0]), id)).credit)
  }

  /** Chained calls in all of which both projects are busy. */
  ghost predicate BusyChain(leq: Collation, ticks: seq<Snapshot>, a: string, b: string) {
    && ticks != [] && Chained(leq, ticks)
    && DistinctProjects(ticks[0].projects) && (forall p :: p in ticks[0].projects ==> p.id != "")
    && (forall k :: 0 <= k < |ticks| ==> BusyIn(leq, ticks[k], a) && BusyIn(leq, ticks[k], b))
  }

  lemma {:induction false} BusyPrefix(leq: Collation, ticks: seq<Snapshot>, a: string, b: string)
    requires BusyChain(leq, ticks, a, b) && |ticks| > 1
    ensures BusyChain(leq, ticks[..|ticks|-1], a, b)
    ensures Continued(leq, ticks[|ticks|-2], ticks[|ticks|-1])
  {
    hide BusyIn, Continued;
    ChainedPrefix(leq, ticks);
    var init := ticks[..|ticks|-1];
    assert forall k :: 0 <= k < |init| ==> init[k] == ticks[k];
  }

  lemma BusyEnters(leq: Collation, snap: Snapshot, id: string)
    requires BusyIn(leq, snap, id)
    ensures QueueOf(Initial(leq, snap).queues, id) != []
  {
    hide Run;
    var env, start := SettingOf(leq, snap), Initial(leq, snap);
    QueueShrinks(env, start, id);
    if QueueOf(start.queues, id) == [] {
      LastTaskEndsCall(env, start, id);
    }
  }

  /** Both projects are in phase for some rotation that began at s. */
  ghost predicate SomePhase(env: Setting, st: State, s: nat, i: nat, pi: Past, ci: real, j: nat, pj: Past, cj: real)
    requires i < |env.order| && j < |env.order|
  {
    exists q, r :: BothInPhase(env, st, s, q, r, i, pi, ci, j, pj, cj)
  }

  /** Before or after a call, two projects of its order are in phase. */
  ghost predicate InPhase(leq: Collation, snap: Snapshot, st: State, s: nat, i: nat, pi: Past, j: nat, pj: Past) {
    var env, end := SettingOf(leq, snap), Final(leq, snap);
    && i < |env.order| && j < |env.order|
    && SomePhase(env, st, s, i, pi, Left(end, env.order[i].id), j, pj, Left(end, env.order[j].id))
  }

  lemma OneTick(leq: Collation, snap: Snapshot, s: nat, i: nat, pi: Past, j: nat, pj: Past)
    requires InPhase(leq, snap, Initial(leq, snap), s, i, pi, j, pj) && i != j && DistinctProjects(snap.projects)
    requires var order := SettingOf(leq, snap).order;
             BusyIn(leq, snap, order[i].id) && BusyIn(leq, snap, order[j].id)
    ensures InPhase(leq, snap, Final(leq, snap), s, i, pi, j, pj)
  {
    hide Run, Left, Busy, BothInPhase;
    var env, start, end := SettingOf(leq, snap), Initial(leq, snap), Final(leq, snap);
    OrderFacts(leq, snap);
    AdmitHomogeneous(snap, LoadOf(snap.activeRuns), StableOrder(leq, snap.readyTasks));
    hide Initial, SettingOf, Homogeneous;
    var ci, cj := Left(end, env.order[i].id), Left(end, env.order[j].id);
    var q, r :| BothInPhase(env, start, s, q, r, i, pi, ci, j, pj, cj);
    var q', r' := BusyStayInPhase(env, start, s, q, r, i, pi, ci, j, pj, cj);
  }

  lemma CursorHandedOver(leq: Collation, first: Snapshot, second: Snapshot)
    requires Continued(leq, first, second) && DistinctProjects(first.projects) && first.projects != []
    requires forall p :: p in first.projects ==> p.id != ""
    ensures Initial(leq, second).cursor == Final(leq, first).cursor
  {
    var env, end := SettingOf(leq, first), Final(leq, first);
    OrderFacts(leq, first);
    RunStops(env, Initial(leq, first));
    assert end.cursor < |env.order|;
    assert env.order[end.cursor] in first.projects;
    assert Decide(leq, first).cursorProjectId == Some(env.order[end.cursor].id);
    assert env.order[FindProject(env.order, env.order[end.cursor].id)].id == env.order[end.cursor].id;
  }

  /** What a project's past becomes when another call has begun. */
  function NextPast(leq: Collation, first: Snapshot, second: Snapshot, id: string, past: Past): Past {
    Past(past.quanta + Count(Final(leq, first).quanta, id),
         past.wakes + (if WakesUp(leq, first, second, id) then 1 else 0),
         past.sleeps + (if FallsAsleep(leq, first, second, id) then 1 else 0),
         past.credit)
  }

  /** Between calls only the next task changes: a wake or a sleep makes up for it. */
  lemma PhaseHandedOver(leq: Collation, first: Snapshot, second: Snapshot, s: nat, q: nat, r: nat, i: nat, past: Past,
      c: real)
    requires Continued(leq, first, second) && DistinctProjects(first.projects) && i < |SettingOf(leq, first).order|
    requires BusyIn(leq, second, SettingOf(leq, first).order[i].id)
    requires Initial(leq, second).cursor == Final(leq, first).cursor
    requires PhaseAt(SettingOf(leq, first), Final(leq, first), past,
                     Left(Final(leq, first), SettingOf(leq, first).order[i].id), s, q, r, i)
    ensures SettingOf(leq, second).order == SettingOf(leq, first).order
    ensures var id := SettingOf(leq, first).order[i].id;
            PhaseAt(SettingOf(leq, second), Initial(leq, second), NextPast(leq, first, second, id, past), c, s, q, r, i)
  {
    hide Run, Initial, BusyIn, Turns, Phase, Need, Entering, Left, Continued, DistinctProjects;
    var p, end, start := SettingOf(leq, first).order[i], Final(leq, first), Initial(leq, second);
    SameOrder(leq, first, second);
    AccountHandedOver(leq, first, second, p, c);
    PhaseShifts(start.cursor == i, Turns(|SettingOf(leq, first).order|, s, q, r, i),
                past.quanta + Count(end.quanta, p.id), DeficitOf(end.deficits, p.id),
                Left(end, p.id), Entering(leq, second, p.id), past, NextPast(leq, first, second, p.id, past));
  }

  lemma SameOrder(leq: Collation, first: Snapshot, second: Snapshot)
    requires Continued(leq, first, second)
    ensures SettingOf(leq, second).order == SettingOf(leq, first).order
  {
    hide Decide;
  }

  /** The deficit is handed over, quanta are counted anew, and only the next task may be another. */
  lemma AccountHandedOver(leq: Collation, first: Snapshot, second: Snapshot, p: Project, c: real)
    requires Continued(leq, first, second) && DistinctProjects(first.projects)
    requires p in SettingOf(leq, first).order && BusyIn(leq, second, p.id)
    ensures var end, start := Final(leq, first), Initial(leq, second);
            && start.quanta == map[] && DeficitOf(start.deficits, p.id) == DeficitOf(end.deficits, p.id)
            && Need(start, p.id, c) == Entering(leq, second, p.id)
            && Need(end, p.id, Left(end, p.id)) == Left(end, p.id)
  {
    hide Run, BusyIn;
    OrderFacts(leq, first);
    HandedOver(leq, first, second, p);
    BusyEnters(leq, second, p.id);
  }

  /** A wake or a sleep makes up for another next task. */
  lemma PhaseShifts(atCursor: bool, turns: nat, quanta: nat, d: real, left: real, entering: real,
                    past: Past, past': Past)
    requires Phase(atCursor, turns, quanta, d, left, past)
    requires past'.wakes == past.wakes + if entering <= d < left then 1 else 0
    requires past'.sleeps == past.sleeps + if left <= d < entering then 1 else 0
    requires past'.credit == past.credit
    ensures Phase(atCursor, turns, quanta, d, entering, past')
  {
  }

  lemma BothHandedOver(leq: Collation, first: Snapshot, second: Snapshot, s: nat, i: nat, pi: Past, j: nat, pj: Past)
    requires Continued(leq, first, second) && DistinctProjects(first.projects)
             && (forall p :: p in first.projects ==> p.id != "")
    requires InPhase(leq, first, Final(leq, first), s, i, pi, j, pj)
    requires var order := SettingOf(leq, first).order;
             BusyIn(leq, second, order[i].id) && BusyIn(leq, second, order[j].id)
    ensures SettingOf(leq, second).order == SettingOf(leq, first).order
    ensures var order := SettingOf(leq, first).order;
            InPhase(leq, second, Initial(leq, second), s, i, NextPast(leq, first, second, order[i].id, pi),
                    j, NextPast(leq, first, second, order[j].id, pj))
  {
    hide Run, Initial, PhaseAt, Left, BusyIn, NextPast;
    var order, end := SettingOf(leq, first).order, Final(leq, first);
    var a, b := order[i].id, order[j].id;
    OrderFacts(leq, first);
    CursorHandedOver(leq, first, second);
    var q, r :| BothInPhase(SettingOf(leq, first), end, s, q, r, i, pi, Left(end, a), j, pj, Left(end, b));
    var ci, cj := Left(Final(leq, second), a), Left(Final(leq, second), b);
    PhaseHandedOver(leq, first, second, s, q, r, i, pi, ci);
    PhaseHandedOver(leq, first, second, s, q, r, j, pj, cj);
    assert BothInPhase(SettingOf(leq, second), Initial(leq, second), s, q, r,
                       i, NextPast(leq, first, second, a, pi), ci, j, NextPast(leq, first, second, b, pj), cj);
  }

  lemma {:induction false} PastGrows(leq: Collation, ticks: seq<Snapshot>, id: string)
    requires |ticks| > 1
    ensures var n := |ticks|;
            PastOf(leq, ticks, id) == NextPast(leq, ticks[n-2], ticks[n-1], id, PastOf(leq, ticks[..n-1], id))
  {
    hide FallsAsleep, WakesUp, Final;
    var n := |ticks|;
    var init := ticks[..n-1];
    assert init[..n-2] == ticks[..n-2] && init[n-2] == ticks[n-2];
  }

  lemma {:induction false} ChainSameProjects(leq: Collation, ticks: seq<Snapshot>, k: nat)
    requires Chained(leq, ticks) && k < |ticks|
    ensures ticks[k].projects == ticks[0].projects
    ensures SettingOf(leq, ticks[k]).order == SettingOf(leq, ticks[0]).order
  {
    SameProjects(leq, ticks, k);
  }

  /** At the start of the last call of a chain both projects are in phase. */
  lemma {:induction false} LongRunPhase(leq: Collation, ticks: seq<Snapshot>, i: nat, j: nat) returns (s: nat)
    requires ticks != [] && var order := SettingOf(leq, ticks[0]).order;
             i < |order| && j < |order| && i != j && BusyChain(leq, ticks, order[i].id, order[j].id)
    ensures var order, last := SettingOf(leq, ticks[0]).order, ticks[|ticks|-1];
            InPhase(leq, last, Initial(leq, last), s, i, PastOf(leq, ticks, order[i].id), j,
                    PastOf(leq, ticks, order[j].id))
  {
    hide Run, Initial, BusyIn, SomePhase, PastOf, NextPast, Left;
    var order, last := SettingOf(leq, ticks[0]).order, ticks[|ticks|-1];
    var a, b := order[i].id, order[j].id;
    if |ticks| == 1 {
      s := Initial(leq, last).cursor;
      FirstInPhase(leq, ticks, i, j);
    } else {
      var init, previous := ticks[..|ticks|-1], ticks[|ticks|-2];
      BusyPrefix(leq, ticks, a, b);
      assert init[0] == ticks[0] && init[|init|-1] == previous;
      s := LongRunPhase(leq, init, i, j);
      ChainSameProjects(leq, ticks, |ticks| - 2);
      assert BusyIn(leq, previous, a) && BusyIn(leq, previous, b) && BusyIn(leq, last, a) && BusyIn(leq, last, b);
      OneTick(leq, previous, s, i, PastOf(leq, init, a), j, PastOf(leq, init, b));
      BothHandedOver(leq, previous, last, s, i, PastOf(leq, init, a), j, PastOf(leq, init, b));
      PastGrows(leq, ticks, a);
      PastGrows(leq, ticks, b);
    }
  }

  lemma {:induction false} FirstInPhase(leq: Collation, ticks: seq<Snapshot>, i: nat, j: nat)
    requires |ticks| == 1 && i < |SettingOf(leq, ticks[0]).order| && j < |SettingOf(leq, ticks[0]).order|
    ensures var snap, order := ticks[0], SettingOf(leq, ticks[0]).order;
            InPhase(leq, snap, Initial(leq, snap), Initial(leq, snap).cursor,
                    i, PastOf(leq, ticks, order[i].id), j, PastOf(leq, ticks, order[j].id))
  {
    hide Run, Initial, BothInPhase, Left;
    var snap, end := ticks[0], Final(leq, ticks[0]);
    var env := SettingOf(leq, snap);
    assert ticks[..0] == [];
    FirstPhase(leq, snap, i, Left(end, env.order[i].id), j, Left(end, env.order[j].id));
  }

  /** Over any number of chained calls with any number of slots, the lead of one busy project over
      another in quanta follows their sleeps and wakes: it is never more than three away from
      the difference of the two nets. When those are few, two quanta, its own sleeps and the
      other's wakes bound it more closely. */
  lemma {:induction false} LongRunQuanta(leq: Collation, ticks: seq<Snapshot>, i: nat, j: nat)
    requires ticks != [] && var order := SettingOf(leq, ticks[0]).order;
             i < |order| && j < |order| && i != j && BusyChain(leq, ticks, order[i].id, order[j].id)
    ensures var a, b := SettingOf(leq, ticks[0]).order[i].id, SettingOf(leq, ticks[0]).order[j].id;
            var lead, net := Lead(leq, ticks, a, b), Net(leq, ticks, a) - Net(leq, ticks, b);
            && net - 3 <= lead <= net + 3
            && lead <= 2 + Sleeps(leq, ticks, a) + Wakes(leq, ticks, b)
  {
    hide Run, Initial, BusyIn, Sleeps, Wakes, Phase, Left;
    var order, last := SettingOf(leq, ticks[0]).order, ticks[|ticks|-1];
    var end := Final(leq, last);
    var a, b := order[i].id, order[j].id;
    ChainSameProjects(leq, ticks, |ticks| - 1);
    var s := LongRunPhase(leq, ticks, i, j);
    assert BusyIn(leq, last, a) && BusyIn(leq, last, b);
    var pa, pb := PastOf(leq, ticks, a), PastOf(leq, ticks, b);
    OneTick(leq, last, s, i, pa, j, pb);
    var ca, cb := Left(end, a), Left(end, b);
    var q, r :| BothInPhase(SettingOf(leq, last), end, s, q, r, i, pa, ca, j, pb, cb);
    QuantaGap(|order|, end.cursor, s, q, r, i, j,
              pa.quanta + Count(end.quanta, a), DeficitOf(end.deficits, a), Need(end, a, ca), pa,
              pb.quanta + Count(end.quanta, b), DeficitOf(end.deficits, b), Need(end, b, cb), pb);
  }

  /** When neither falls asleep or wakes up between calls, the numbers of quanta differ by at
      most two, however many calls are made. */
  lemma {:induction false} SteadyQuanta(leq: Collation, ticks: seq<Snapshot>, i: nat, j: nat)
    requires ticks != [] && var order := SettingOf(leq, ticks[0]).order;
             i < |order| && j < |order| && i != j && BusyChain(leq, ticks, order[i].id, order[j].id)
    requires var a, b := SettingOf(leq, ticks[0]).order[i].id, SettingOf(leq, ticks[0]).order[j].id;
             forall k :: 0 <= k < |ticks| - 1 ==>
               Steady(leq, ticks[k], ticks[k+1], a) && Steady(leq, ticks[k], ticks[k+1], b)
    ensures var a, b := SettingOf(leq, ticks[0]).order[i].id, SettingOf(leq, ticks[0]).order[j].id;
            -2 <= Lead(leq, ticks, a, b) <= 2
  {
    hide BusyIn, Steady, TotalQuanta, Sleeps, Wakes;
    var a, b := SettingOf(leq, ticks[0]).order[i].id, SettingOf(leq, ticks[0]).order[j].id;
    NeverAsleep(leq, ticks, a);
    NeverAsleep(leq, ticks, b);
    LongRunQuanta(leq, ticks, i, j);
    LongRunQuanta(leq, ticks, j, i);
  }

  /** With the deficit handed over, the project can afford the next task if and only if it
      could afford the one it was left with. */
  predicate Steady(leq: Collation, first: Snapshot, second: Snapshot, id: string) {
    var d := DeficitOf(Final(leq, first).deficits, id);
    d >= Left(Final(leq, first), id) <==> d >= Entering(leq, second, id)
  }

  lemma {:induction false} NeverAsleep(leq: Collation, ticks: seq<Snapshot>, id: string)
    requires forall k :: 0 <= k < |ticks| - 1 ==> Steady(leq, ticks[k], ticks[k+1], id)
    ensures Sleeps(leq, ticks, id) == 0 && Wakes(leq, ticks, id) == 0
  {
    if |ticks| < 2 {
    } else {
      var n := |ticks|;
      var init := ticks[..n-1];
      hide Steady, FallsAsleep, WakesUp;
      forall k | 0 <= k < |init| - 1 ensures Steady(leq, init[k], init[k+1], id) {
        assert Steady(leq, ticks[k], ticks[k+1], id);
      }
      NeverAsleep(leq, init, id);
      assert Steady(leq, ticks[n-2], ticks[n-2+1], id);
      SteadyIsNeither(leq, ticks[n-2], ticks[n-1], id);
    }
  }

  lemma SteadyIsNeither(leq: Collation, first: Snapshot, second: Snapshot, id: string)
    ensures Steady(leq, first, second, id) <==> !FallsAsleep(leq, first, second, id) && !WakesUp(leq, first, second, id)
  {
    hide Final, Left, Entering;
  }

  /** Cost served to one project per quantum (twice its weight), less the same of the other. */
  function ServiceGap(leq: Collation, ticks: seq<Snapshot>, pi: Project, pj: Project): real {
    TotalSpent(leq, ticks, pi.id) / Quantum(pi) - TotalSpent(leq, ticks, pj.id) / Quantum(pj)
  }

  /** How far the service of two projects can be from their nets. */
  function Slack(pi: Project, pj: Project): real {
    5.0 + 6.0 / Quantum(pi) + 6.0 / Quantum(pj)
  }

  /** Proportional service: over any number of calls, the cost served to one busy project per
      quantum differs from that served to another by their nets, up to a constant that does not
      grow with the number of calls. */
  lemma {:induction false} LongRunServiceIsProportional(leq: Collation, ticks: seq<Snapshot>, i: nat, j: nat)
    requires ticks != [] && var order := SettingOf(leq, ticks[0]).order;
             && i < |order| && j < |order| && i != j && BusyChain(leq, ticks, order[i].id, order[j].id)
             && 0.0 <= StartingDeficit(ticks[0], order[i].id) < 6.0 + Quantum(order[i])
             && 0.0 <= StartingDeficit(ticks[0], order[j].id) < 6.0 + Quantum(order[j])
    ensures var pi, pj := SettingOf(leq, ticks[0]).order[i], SettingOf(leq, ticks[0]).order[j];
            var gap, net := ServiceGap(leq, ticks, pi, pj), (Net(leq, ticks, pi.id) - Net(leq, ticks, pj.id)) as real;
            var lead := 2 + Sleeps(leq, ticks, pi.id) + Wakes(leq, ticks, pj.id);
            && net - Slack(pi, pj) < gap < net + Slack(pi, pj)
            && gap < lead as real + 2.0 + 6.0 / Quantum(pi) + 6.0 / Quantum(pj)
  {
    hide Run, Initial, BusyIn, Chained, Sleeps, Wakes, Net, BalancedBooks, StartingDeficit;
    var order := SettingOf(leq, ticks[0]).order;
    var pi, pj := order[i], order[j];
    OrderFacts(leq, ticks[0]);
    assert pi in order && pj in order;
    LongRunQuanta(leq, ticks, i, j);
    DeficitsOverTicks(leq, ticks, pi);
    DeficitsOverTicks(leq, ticks, pj);
    var net := Net(leq, ticks, pi.id) - Net(leq, ticks, pj.id);
    var di, dj := StartingDeficit(ticks[0], pi.id), StartingDeficit(ticks[0], pj.id);
    var bi, bj := TickBooks(leq, ticks, pi.id), TickBooks(leq, ticks, pj.id);
    CostsAreClose(Quantum(pi), Quantum(pj), di, dj, bi, bj, net + 3);
    CostsAreClose(Quantum(pj), Quantum(pi), dj, di, bj, bi, 3 - net);
    CostsAreClose(Quantum(pi), Quantum(pj), di, dj, bi, bj,
                  2 + Sleeps(leq, ticks, pi.id) + Wakes(leq, ticks, pj.id));
  }

  // ------------------------------------------------------- endless chains

  /** The first n calls of an endless chain. */
  function Calls(run: nat -> Snapshot, n: nat): (ticks: seq<Snapshot>)
    ensures |ticks| == n && forall k :: 0 <= k < n ==> ticks[k] == run(k)
  {
    seq(n, k requires 0 <= k < n => run(k))
  }

  /** Every beginning of the endless chain is a chain in which both projects are busy. */
  ghost predicate BusyForever(leq: Collation, run: nat -> Snapshot, a: string, b: string) {
    forall n: nat :: n > 0 ==> BusyChain(leq, Calls(run, n), a, b)
  }

  ghost predicate LeadWithin(leq: Collation, run: nat -> Snapshot, a: string, b: string, bound: int) {
    forall n: nat :: n > 0 ==> -bound <= Lead(leq, Calls(run, n), a, b) <= bound
  }

  ghost predicate NetsWithin(leq: Collation, run: nat -> Snapshot, a: string, b: string, bound: int) {
    forall n: nat :: n > 0 ==> -bound <= Net(leq, Calls(run, n), a) - Net(leq, Calls(run, n), b) <= bound
  }

  ghost predicate ServiceWithin(leq: Collation, run: nat -> Snapshot, pi: Project, pj: Project, bound: real) {
    forall n: nat :: n > 0 ==> -bound < ServiceGap(leq, Calls(run, n), pi, pj) < bound
  }

  /** In an endless chain in which two projects are busy, neither gets ahead of the other in quanta
      without bound if and only if neither does in sleeps less wakes, which can be told from
      the deficits and next tasks before each call. */
  lemma {:induction false} LeadIsBoundedIffNetsAre(leq: Collation, run: nat -> Snapshot, i: nat, j: nat)
    requires var order := SettingOf(leq, run(0)).order;
             i < |order| && j < |order| && i != j && BusyForever(leq, run, order[i].id, order[j].id)
    ensures var a, b := SettingOf(leq, run(0)).order[i].id, SettingOf(leq, run(0)).order[j].id;
            (exists bound :: LeadWithin(leq, run, a, b, bound)) <==> (exists bound :: NetsWithin(leq, run, a, b, bound))
  {
    hide Lead, Net, BusyChain, SettingOf;
    var order := SettingOf(leq, run(0)).order;
    var a, b := order[i].id, order[j].id;
    forall n: nat | n > 0
      ensures var net := Net(leq, Calls(run, n), a) - Net(leq, Calls(run, n), b);
              net - 3 <= Lead(leq, Calls(run, n), a, b) <= net + 3
    {
      assert Calls(run, n)[0] == run(0);
      LongRunQuanta(leq, Calls(run, n), i, j);
    }
    if bound :| LeadWithin(leq, run, a, b, bound) {
      assert NetsWithin(leq, run, a, b, bound + 3);
    }
    if bound :| NetsWithin(leq, run, a, b, bound) {
      assert LeadWithin(leq, run, a, b, bound + 3);
    }
  }

  /** And their service stays proportional to their weights, up to a constant, if and only if the
      same holds of sleeps less wakes. */
  lemma {:induction false} ServiceIsProportionalIffNetsAre(leq: Collation, run: nat -> Snapshot, i: nat, j: nat)
    requires var order := SettingOf(leq, run(0)).order;
             && i < |order| && j < |order| && i != j && BusyForever(leq, run, order[i].id, order[j].id)
             && 0.0 <= StartingDeficit(run(0), order[i].id) < 6.0 + Quantum(order[i])
             && 0.0 <= StartingDeficit(run(0), order[j].id) < 6.0 + Quantum(order[j])
    ensures var pi, pj := SettingOf(leq, run(0)).order[i], SettingOf(leq, run(0)).order[j];
            (exists bound :: ServiceWithin(leq, run, pi, pj, bound))
            <==> (exists bound :: NetsWithin(leq, run, pi.id, pj.id, bound))
  {
    hide ServiceGap, Net, BusyChain, SettingOf, Slack, Quantum;
    var order := SettingOf(leq, run(0)).order;
    var pi, pj := order[i], order[j];
    var slack := Slack(pi, pj);
    forall n: nat | n > 0
      ensures var net := (Net(leq, Calls(run, n), pi.id) - Net(leq, Calls(run, n), pj.id)) as real;
              net - slack < ServiceGap(leq, Calls(run, n), pi, pj) < net + slack
    {
      assert Calls(run, n)[0] == run(0);
      LongRunServiceIsProportional(leq, Calls(run, n), i, j);
    }
    if bound :| ServiceWithin(leq, run, pi, pj, bound) {
      NetsFollowService(leq, run, pi, pj, bound, slack);
    }
    if bound :| NetsWithin(leq, run, pi.id, pj.id, bound) {
      assert ServiceWithin(leq, run, pi, pj, bound as real + slack);
    }
  }

  lemma {:induction false} NetsFollowService(
      leq: Collation, run: nat -> Snapshot, pi: Project, pj: Project, bound: real, slack: real)
    requires ServiceWithin(leq, run, pi, pj, bound)
    requires forall n: nat :: n > 0 ==>
               var net := (Net(leq, Calls(run, n), pi.id) - Net(leq, Calls(run, n), pj.id)) as real;
               net - slack < ServiceGap(leq, Calls(run, n), pi, pj) < net + slack
    ensures exists whole :: NetsWithin(leq, run, pi.id, pj.id, whole)
  {
    hide ServiceGap, Net;
    assert -bound < ServiceGap(leq, Calls(run, 1), pi, pj) < bound;
    var whole := (bound + slack).Floor + 1;
    assert NetsWithin(leq, run, pi.id, pj.id, whole);
  }

  // ------------------------------------------------------- one-slot calls

  /** Until a task is selected, nothing but deficits and the cursor changes. */
  ghost predicate Pristine(start: State, st: State) {
    st.selected == [] ==>
      && st.queues == start.queues && st.scopes == start.scopes
      && st.projectRuns == start.projectRuns && st.adapterRuns == start.adapterRuns
      && st.accountRuns == start.accountRuns
  }

  /** Nothing queued at the start would be dropped at the start. */
  ghost predicate Clear(env: Setting, start: State) {
    forall id, t :: id in start.queues && t in start.queues[id] ==> ClearTask(env, start, id, t)
  }

  predicate ClearTask(env: Setting, start: State, id: string, t: Task) {
    Refusal(env, start, t) == None && Count(start.projectRuns, id) < env.limits.perProjectMaxRuns
  }

  lemma {:induction false} AdmittedIsClear(snap: Snapshot, tasks: seq<Task>, id: string, t: Task)
    requires var a := Admit(snap, LoadOf(snap.activeRuns), tasks); id in a.queues && t in a.queues[id]
    ensures t.projectId == id && t in tasks && Obstacle(snap, LoadOf(snap.activeRuns), t) == None
  {
    var init, last := tasks[..|tasks|-1], tasks[|tasks|-1];
    var before := Admit(snap, LoadOf(snap.activeRuns), init);
    assert tasks == init + [last];
    if id in before.queues && t in before.queues[id] {
      AdmittedIsClear(snap, init, id, t);
    }
  }

  lemma NoObstacleNoRefusal(leq: Collation, snap: Snapshot, t: Task)
    requires Obstacle(snap, LoadOf(snap.activeRuns), t) == None
    ensures ClearTask(SettingOf(leq, snap), Initial(leq, snap), t.projectId, t)
  {
    hide Admit, StableOrder, LoadOf, Clashes, AtLimit, ProjectById, ProjectOrder, StartingDeficits;
  }

  lemma InitialIsClear(leq: Collation, snap: Snapshot)
    ensures Clear(SettingOf(leq, snap), Initial(leq, snap))
  {
    hide StableOrder, LoadOf, Obstacle, ClearTask;
    var env, start := SettingOf(leq, snap), Initial(leq, snap);
    forall id: string, t: Task | id in start.queues && t in start.queues[id]
      ensures ClearTask(env, start, id, t)
    {
      AdmittedIsClear(snap, StableOrder(leq, snap.readyTasks), id, t);
      NoObstacleNoRefusal(leq, snap, t);
    }
  }

  lemma PristineServes(env: Setting, start: State, st: State)
    requires st.cursor < |env.order| && st.selected == [] && Pristine(start, st) && Clear(env, start)
    ensures HeadQueue(env, st) != [] ==> KindOf(env, st) == Unaffordable || KindOf(env, st) == Selects
    ensures HeadQueue(env, st) == [] ==> KindOf(env, st) == Vacant
  {
    var queue := HeadQueue(env, st);
    if queue != [] {
      assert queue[0] in start.queues[Visited(env, st).id] && ClearTask(env, start, Visited(env, st).id, queue[0]);
      assert Refusal(env, st, queue[0]) == Refusal(env, start, queue[0]);
    }
  }

  lemma VisitKeepsPristine(env: Setting, start: State, st: State)
    requires st.cursor < |env.order| && st.selected == [] && Pristine(start, st) && Clear(env, start)
    ensures Pristine(start, Visit(env, st))
  {
    PristineServes(env, start, st);
    QueuesAfter(env, st, KindOf(env, st));
    if KindOf(env, st) == Selects {
      WhenSelecting(env, st);
    } else {
      WhenPassing(env, st);
    }
  }

  /** While no task was selected nothing was lost; the first selection ends the call. */
  ghost predicate OneSlotHolds(env: Setting, start: State, st: State, id: string) {
    && Homogeneous(st.queues) && Pristine(start, st) && Kept(st, id) == Kept(start, id)
    && (st.selected != [] ==> |st.selected| >= env.slots)
    && (QueueOf(st.queues, id) != [] || (st.selected != [] && st.selected[|st.selected|-1].projectId == id))
  }

  lemma VisitKeepsOneSlot(env: Setting, start: State, st: State, id: string)
    requires env.slots <= 1 && st.cursor < |env.order| && Continues(env, st) && Clear(env, start)
    requires OneSlotHolds(env, start, st, id)
    ensures OneSlotHolds(env, start, Visit(env, st), id)
  {
    hide Visit, KindOf, Refusal, Clear;
    assert st.selected == [];
    PristineServes(env, start, st);
    VisitKeepsPristine(env, start, st);
    VisitHomogeneous(env, st);
    KeptAfter(env, st, id);
    if KindOf(env, st) == Selects {
      WhenSelecting(env, st);
    } else {
      WhenPassing(env, st);
    }
  }

  /** In a call with at most one free slot every project with an admissible task is busy. */
  lemma OneSlotIsBusy(leq: Collation, snap: Snapshot, id: string)
    requires SettingOf(leq, snap).slots <= 1 && QueueOf(Initial(leq, snap).queues, id) != []
    ensures BusyIn(leq, snap, id)
  {
    hide Run, Clear, OneSlotHolds;
    var env, start := SettingOf(leq, snap), Initial(leq, snap);
    InitialIsClear(leq, snap);
    OneSlotStarts(leq, snap, id);
    hide Initial, SettingOf;
    var holds := (st: State) => OneSlotHolds(env, start, st, id);
    forall st | holds(st) && Continues(env, st) && st.cursor < |env.order| ensures holds(Visit(env, st)) {
      VisitKeepsOneSlot(env, start, st, id);
    }
    RunInduction(env, start, holds);
    OneSlotEnds(env, start, id);
  }

  lemma OneSlotStarts(leq: Collation, snap: Snapshot, id: string)
    requires QueueOf(Initial(leq, snap).queues, id) != []
    ensures InRange(SettingOf(leq, snap), Initial(leq, snap))
    ensures OneSlotHolds(SettingOf(leq, snap), Initial(leq, snap), Initial(leq, snap), id)
  {
    hide ProjectOrder;
    AdmitHomogeneous(snap, LoadOf(snap.activeRuns), StableOrder(leq, snap.readyTasks));
  }

  lemma OneSlotEnds(env: Setting, start: State, id: string)
    requires InRange(env, start) && start.selected == [] && OneSlotHolds(env, start, Run(env, start), id)
    ensures Busy(env, start, id)
  {
    hide Run;
  }
}
