/** With unequal costs a one-slot scheduler can be monopolized: a chain of calls, as long as one
    likes, in which one of two busy projects of equal weight gets every run. */
module SchedulerMonopoly {
  import opened Orders
  import opened Scheduler
  import opened SchedulerAccounts
  import opened SchedulerFairness
  import opened SchedulerPartition
  import opened SchedulerRuns
  import opened SchedulerTicks
  import opened Wrappers

  function Equal(id: string): Project {
    Project(id, Trusted, Finite(4.5))
  }

  /** Project x offers an expensive task and then a cheap one, project y one cheap task. */
  function Expensive(x: string): Task {
    Task("expensive", x, Max, 3.0, None, [])
  }

  function Cheap(x: string): Task {
    Task("cheap", x, Low, 2.0, None, [])
  }

  function Other(y: string): Task {
    Task("other", y, Low, 1.0, None, [])
  }

  function Offer(x: string, y: string): seq<Task> {
    [Expensive(x), Cheap(x), Other(y)]
  }

  function Tick(x: string, y: string, d: real): Snapshot {
    var route := Route("adapter", "account");
    Snapshot([Equal(x), Equal(y)], Offer(x, y), [],
             map["expensive" := route, "cheap" := route, "other" := route],
             Limits(1, 10, map[], map[], false), map[x := d, y := 0.0], Some(x))
  }

  /** The deficit of x cycles through 1, 4 and 7. */
  function NextDeficit(d: real): real {
    if d < 6.0 then d + 3.0 else d - 6.0
  }

  function DeficitAt(k: nat): (d: real)
    ensures d == 1.0 || d == 4.0 || d == 7.0
  {
    if k == 0 then 1.0 else NextDeficit(DeficitAt(k - 1))
  }

  function Ticks(x: string, y: string, n: nat): (ticks: seq<Snapshot>)
    ensures |ticks| == n
    ensures forall k :: 0 <= k < n ==> ticks[k] == Tick(x, y, DeficitAt(k))
  {
    if n == 0 then [] else Ticks(x, y, n - 1) + [Tick(x, y, DeficitAt(n - 1))]
  }

  ghost predicate TwoProjects(leq: Collation, x: string, y: string) {
    x != y && x != "" && y != "" && leq(x, y)
  }

  // ------------------------------------------------------------- one call

  lemma OfferIsAdmitted(x: string, y: string, d: real)
    requires x != y
    ensures Admit(Tick(x, y, d), LoadOf([]), Offer(x, y))
            == Admission(map[x := [Expensive(x), Cheap(x)], y := [Other(y)]], map[])
  {
    var snap, load := Tick(x, y, d), LoadOf([]);
    OfferIsClear(x, y, d);
    assert Admit(snap, load, []) == Admission(map[], map[]);
    hide Obstacle, Admit, Tick, LoadOf, Expensive, Cheap, Other;
    AdmitClear(snap, load, [], Expensive(x));
    assert [] + [Expensive(x)] == [Expensive(x)];
    assert Admit(snap, load, [Expensive(x)]) == Admission(map[x := [Expensive(x)]], map[]);
    AdmitClear(snap, load, [Expensive(x)], Cheap(x));
    assert [Expensive(x)] + [Cheap(x)] == [Expensive(x), Cheap(x)];
    assert Admit(snap, load, [Expensive(x), Cheap(x)]) == Admission(map[x := [Expensive(x), Cheap(x)]], map[]);
    AdmitClear(snap, load, [Expensive(x), Cheap(x)], Other(y));
    assert [Expensive(x), Cheap(x)] + [Other(y)] == Offer(x, y) && [] + [Other(y)] == [Other(y)];
  }

  lemma OfferIsClear(x: string, y: string, d: real)
    requires x != y
    ensures Expensive(x).projectId == x && Cheap(x).projectId == x && Other(y).projectId == y
    ensures forall t :: t in Offer(x, y) ==> Obstacle(Tick(x, y, d), LoadOf([]), t) == None
    ensures Expensive(x) in Offer(x, y) && Cheap(x) in Offer(x, y) && Other(y) in Offer(x, y)
  {
    NamesDiffer();
    FindsBoth(x, y);
    assert LoadOf([]) == Load(map[], map[], map[], map[]);
  }

  lemma NamesDiffer()
    ensures "expensive" != "cheap" && "cheap" != "other" && "expensive" != "other"
  {
    assert |"expensive"| == 9 && |"cheap"| == 5 && "cheap"[0] == 'c' && "other"[0] == 'o';
  }

  lemma FindsBoth(x: string, y: string)
    requires x != y
    ensures ProjectById([Equal(x), Equal(y)], x) == Some(Equal(x))
            && ProjectById([Equal(x), Equal(y)], y) == Some(Equal(y))
  {
    assert [Equal(x), Equal(y)][..1] == [Equal(x)];
  }

  /** Before the first visit of a call. */
  ghost predicate Opening(st: State, x: string, y: string, d: real) {
    && st.queues == map[x := [Expensive(x), Cheap(x)], y := [Other(y)]] && st.blocked == map[]
    && st.deficits == map[x := d, y := 0.0] && st.selected == [] && st.quanta == map[]
    && st.projectRuns == map[] && st.adapterRuns == map[] && st.accountRuns == map[] && st.scopes == map[]
    && st.cursor == 0 && st.idle == 0
  }

  lemma TickSetting(leq: Collation, x: string, y: string, d: real)
    requires TwoProjects(leq, x, y)
    ensures var env := SettingOf(leq, Tick(x, y, d));
            && env.order == [Equal(x), Equal(y)] && env.slots == 1 && MaxIdle(env) == 128
            && env.limits == Tick(x, y, d).limits && env.routeByTask == Tick(x, y, d).routeByTask
  {
    SortOfSorted([Equal(x), Equal(y)], (p: Project, q: Project) => leq(p.id, q.id));
  }

  lemma TickOpens(leq: Collation, x: string, y: string, d: real)
    requires TwoProjects(leq, x, y)
    ensures Opening(Initial(leq, Tick(x, y, d)), x, y, d)
  {
    var snap := Tick(x, y, d);
    SortOfSorted(Offer(x, y), (a, b) => TaskLeq(leq, a, b));
    OfferIsAdmitted(x, y, d);
    TickSetting(leq, x, y, d);
    OpeningDeficits(x, y, d);
    OpeningCursor(x, y);
    assert LoadOf([]) == Load(map[], map[], map[], map[]);
    hide Admit, LoadOf, StartingDeficits, StartingCursor, ProjectOrder, Offer;
    assert StableOrder(leq, snap.readyTasks) == Offer(x, y);
  }

  lemma OpeningDeficits(x: string, y: string, d: real)
    requires x != y
    ensures StartingDeficits(Tick(x, y, d)) == map[x := d, y := 0.0]
  {
    assert forall p :: p in [Equal(x), Equal(y)] <==> p == Equal(x) || p == Equal(y);
    assert Equal(x) in Tick(x, y, d).projects && Equal(y) in Tick(x, y, d).projects;
    assert (set p | p in Tick(x, y, d).projects :: p.id) == {x, y};
  }

  lemma OpeningCursor(x: string, y: string)
    requires x != ""
    ensures StartingCursor([Equal(x), Equal(y)], Some(x)) == 0
  {
    assert [Equal(x), Equal(y)][0].id == x;
  }

  /** At the end of a call: x got the expensive task and keeps the cursor. */
  ghost predicate Closing(end: State, x: string, y: string, d: real) {
    && end.queues == map[x := [Cheap(x)], y := [Other(y)]] && end.selected == [Expensive(x)]
    && end.deficits == map[x := NextDeficit(d), y := 0.0] && end.cursor == 0
    && end.quanta == if d < 6.0 then map[x := 1] else map[]
  }

  lemma TickCloses(leq: Collation, x: string, y: string, d: real)
    requires TwoProjects(leq, x, y) && (d == 1.0 || d == 4.0 || d == 7.0)
    ensures Closing(Final(leq, Tick(x, y, d)), x, y, d)
  {
    hide Initial, SettingOf, Visit, Closing, Opening, Tick;
    var env, start := SettingOf(leq, Tick(x, y, d)), Initial(leq, Tick(x, y, d));
    TickSetting(leq, x, y, d);
    TickOpens(leq, x, y, d);
    FirstVisitSelects(leq, x, y, d, start);
    assert Run(env, start) == Visit(env, start);
  }

  lemma FirstVisitSelects(leq: Collation, x: string, y: string, d: real, start: State)
    requires TwoProjects(leq, x, y) && (d == 1.0 || d == 4.0 || d == 7.0) && Opening(start, x, y, d)
    ensures var env := SettingOf(leq, Tick(x, y, d));
            start.cursor < |env.order| && Continues(env, start) && Closing(Visit(env, start), x, y, d)
            && !Continues(env, Visit(env, start))
  {
    var env := SettingOf(leq, Tick(x, y, d));
    TickSetting(leq, x, y, d);
    hide SettingOf;
    OpeningSelects(env, x, y, d, start);
    assert x in start.queues && start.queues[x] != [];
    VisitSelects(env, start);
    hide Visit, KindOf, Select, Waiting, Closing;
    SelectionCloses(env, x, y, d, start, Paid(env, start));
  }

  lemma SelectionCloses(env: Setting, x: string, y: string, d: real, start: State, paid: State)
    requires Opening(start, x, y, d) && x != y && (d == 1.0 || d == 4.0 || d == 7.0)
    requires env.order == [Equal(x), Equal(y)] && env.slots == 1 && Expensive(x).id in env.routeByTask
    requires paid == Paid(env, start)
    ensures HeadQueue(env, start) == [Expensive(x), Cheap(x)]
    ensures var next := Select(env, paid, Equal(x), Expensive(x), HeadQueue(env, start)[1..]);
            Closing(next, x, y, d) && |next.selected| == 1
  {
    PaidBooks(env, x, y, d, start);
    TaskFacts(x);
    SelectFields(env, paid, Equal(x), Expensive(x), [Cheap(x)]);
    var before, after := if d < 6.0 then d + 9.0 else d, NextDeficit(d);
    assert before - 6.0 == after && after >= 1.0;
    Overwrites(x, y, before, after, 0.0);
    Overwrites(x, y, [Expensive(x), Cheap(x)], [Cheap(x)], [Other(y)]);
    hide Paid, Select, Continues, Expensive, Cheap, Other, Equal, NextDeficit, Cost;
    assert [Expensive(x), Cheap(x)][1..] == [Cheap(x)];
    assert [] + [Expensive(x)] == [Expensive(x)];
  }

  lemma Overwrites<T>(x: string, y: string, before: T, after: T, other: T)
    requires x != y
    ensures map[x := before, y := other][x := after] == map[x := after, y := other]
  {
  }

  /** What a selection changes, when the project has another task. */
  lemma SelectFields(env: Setting, st: State, p: Project, t: Task, rest: seq<Task>)
    requires st.cursor < |env.order| && t.id in env.routeByTask && rest != []
    ensures var next, left := Select(env, st, p, t, rest), DeficitOf(st.deficits, p.id) - Cost(t.effort);
            && next.queues == st.queues[p.id := rest] && next.selected == st.selected + [t] && next.quanta == st.quanta
            && next.deficits == st.deficits[p.id := left]
            && (left >= Cost(rest[0].effort) ==> next.cursor == st.cursor)
  {
  }

  lemma TaskFacts(x: string)
    ensures Equal(x).id == x && Expensive(x).projectId == x && Cost(Expensive(x).effort) == 6.0
            && Cost(Cheap(x).effort) == 1.0
  {
  }

  lemma PaidBooks(env: Setting, x: string, y: string, d: real, start: State)
    requires Opening(start, x, y, d) && x != y && (d == 1.0 || d == 4.0 || d == 7.0)
    requires env.order == [Equal(x), Equal(y)]
    ensures HeadQueue(env, start) == [Expensive(x), Cheap(x)]
    ensures var paid := Paid(env, start);
            && paid == start.(deficits := map[x := if d < 6.0 then d + 9.0 else d, y := 0.0],
                              quanta := if d < 6.0 then map[x := 1] else map[])
  {
    var quantum := Quantum(Equal(x));
    assert quantum == 9.0;
    TaskFacts(x);
    hide Expensive, Cheap, Other, Quantum;
  }

  lemma OpeningSelects(env: Setting, x: string, y: string, d: real, start: State)
    requires Opening(start, x, y, d) && x != y && d > 0.0
    requires env.order == [Equal(x), Equal(y)] && env.slots == 1
    requires env.limits == Tick(x, y, d).limits && env.routeByTask == Tick(x, y, d).routeByTask
    ensures KindOf(env, start) == Selects
  {
    NamesDiffer();
    hide Visit;
    assert HeadQueue(env, start) == [Expensive(x), Cheap(x)];
    assert !Clashes(start.scopes, Expensive(x), false);
    assert Refusal(env, start, Expensive(x)) == None;
    hide Refusal;
  }

  /** What a call hands to the next one. */
  lemma TickHandsOver(leq: Collation, x: string, y: string, d: real)
    requires TwoProjects(leq, x, y) && (d == 1.0 || d == 4.0 || d == 7.0)
    ensures Continued(leq, Tick(x, y, d), Tick(x, y, NextDeficit(d)))
  {
    hide Final;
    TickCloses(leq, x, y, d);
    TickSetting(leq, x, y, d);
  }

  lemma TickIsBusy(leq: Collation, x: string, y: string, d: real)
    requires TwoProjects(leq, x, y)
    ensures BusyIn(leq, Tick(x, y, d), x) && BusyIn(leq, Tick(x, y, d), y)
  {
    hide Initial, SettingOf, BusyIn;
    TickSetting(leq, x, y, d);
    TickOpens(leq, x, y, d);
    OneSlotIsBusy(leq, Tick(x, y, d), x);
    OneSlotIsBusy(leq, Tick(x, y, d), y);
  }

  /** Between two calls x, which could afford its cheap task, cannot afford the expensive one,
      unless its deficit is 7; y never could afford its task, and still cannot. */
  lemma TickSleeps(leq: Collation, x: string, y: string, d: real)
    requires TwoProjects(leq, x, y) && (d == 1.0 || d == 4.0 || d == 7.0)
    ensures var first, second := Tick(x, y, d), Tick(x, y, NextDeficit(d));
            && (FallsAsleep(leq, first, second, x) <==> NextDeficit(d) < 6.0)
            && !FallsAsleep(leq, first, second, y) && !WakesUp(leq, first, second, x) && !WakesUp(leq, first, second, y)
  {
    hide Final, Initial;
    TickCloses(leq, x, y, d);
    TickOpens(leq, x, y, NextDeficit(d));
  }

  // --------------------------------------------------------- any number of

  lemma TicksAreChained(leq: Collation, x: string, y: string, n: nat)
    requires TwoProjects(leq, x, y) && n > 0
    ensures BusyChain(leq, Ticks(x, y, n), x, y)
  {
    hide Continued, BusyIn;
    var ticks := Ticks(x, y, n);
    forall k | 0 <= k < n - 1 ensures Continued(leq, ticks[k], ticks[k+1]) {
      TickHandsOver(leq, x, y, DeficitAt(k));
    }
    forall k | 0 <= k < n ensures BusyIn(leq, ticks[k], x) && BusyIn(leq, ticks[k], y) {
      TickIsBusy(leq, x, y, DeficitAt(k));
    }
    assert forall p :: p in ticks[0].projects ==> p == Equal(x) || p == Equal(y);
  }

  /** How many of the first n calls start with a deficit of x below 6. */
  function Poor(n: nat): nat {
    if n == 0 then 0 else Poor(n - 1) + if DeficitAt(n - 1) < 6.0 then 1 else 0
  }

  lemma {:induction false} PoorIsTwoThirds(n: nat)
    ensures 3 * Poor(n) >= 2 * n
    ensures n > 0 ==>
              3 * Poor(n) - 2 * n == if DeficitAt(n - 1) == 1.0 then 1 else if DeficitAt(n - 1) == 4.0 then 2 else 0
  {
    if n == 0 {
    } else {
      PoorIsTwoThirds(n - 1);
    }
  }

  lemma {:induction false} TotalsOfOneMore(leq: Collation, ticks: seq<Snapshot>, last: Snapshot, id: string)
    ensures var end := Final(leq, last);
            && TotalSpent(leq, ticks + [last], id) == TotalSpent(leq, ticks, id) + SpentOn(end.selected, id)
            && TotalQuanta(leq, ticks + [last], id) == TotalQuanta(leq, ticks, id) + Count(end.quanta, id)
  {
    hide Final, SpentOn, Count;
    assert (ticks + [last])[..|ticks|] == ticks;
  }

  lemma TickPays(leq: Collation, x: string, y: string, d: real)
    requires TwoProjects(leq, x, y) && (d == 1.0 || d == 4.0 || d == 7.0)
    ensures var end := Final(leq, Tick(x, y, d));
            && SpentOn(end.selected, x) == 6.0 && SpentOn(end.selected, y) == 0.0
            && Count(end.quanta, x) == (if d < 6.0 then 1 else 0) && Count(end.quanta, y) == 0
  {
    hide Final, Tick;
    TickCloses(leq, x, y, d);
    SpentOnSnoc([], Expensive(x), x);
    SpentOnSnoc([], Expensive(x), y);
    assert [] + [Expensive(x)] == [Expensive(x)];
  }

  lemma {:induction false} TicksCount(leq: Collation, x: string, y: string, n: nat)
    requires TwoProjects(leq, x, y)
    ensures var ticks := Ticks(x, y, n);
            && TotalSpent(leq, ticks, x) == (6 * n) as real && TotalSpent(leq, ticks, y) == 0.0
            && TotalQuanta(leq, ticks, x) == Poor(n) && TotalQuanta(leq, ticks, y) == 0
  {
    hide Final, Tick, SpentOn, Count, DeficitAt;
    if n == 0 {
    } else {
      hide TotalSpent, TotalQuanta;
      var init, last := Ticks(x, y, n - 1), Tick(x, y, DeficitAt(n - 1));
      assert Ticks(x, y, n) == init + [last];
      TicksCount(leq, x, y, n - 1);
      TickPays(leq, x, y, DeficitAt(n - 1));
      TotalsOfOneMore(leq, init, last, x);
      TotalsOfOneMore(leq, init, last, y);
    }
  }

  lemma {:induction false} TicksSleep(leq: Collation, x: string, y: string, n: nat)
    requires TwoProjects(leq, x, y)
    ensures var ticks := Ticks(x, y, n);
            && Sleeps(leq, ticks, x) == (if n == 0 then 0 else Poor(n) - 1) && Sleeps(leq, ticks, y) == 0
            && Wakes(leq, ticks, x) == 0 && Wakes(leq, ticks, y) == 0
    ensures n > 0 ==> Poor(n) > 0
  {
    hide FallsAsleep, WakesUp, Tick;
    if n < 2 {
      assert n == 1 ==> Poor(1) == Poor(0) + 1;
    } else {
      var ticks := Ticks(x, y, n);
      assert ticks[..n-1] == Ticks(x, y, n - 1);
      TicksSleep(leq, x, y, n - 1);
      TickSleeps(leq, x, y, DeficitAt(n - 2));
    }
  }

  /** For every n there are n chained one-slot calls, in all of which both of two projects of
      equal weight have admissible tasks, such that one project gets every run and the other
      not even a quantum. The lead in quanta grows with the sleeps of the one. */
  lemma OneProjectCanMonopolize(leq: Collation, x: string, y: string, n: nat)
    requires TwoProjects(leq, x, y) && n > 0
    ensures var ticks := Ticks(x, y, n);
            && BusyChain(leq, ticks, x, y)
            && (forall k :: 0 <= k < n ==> SettingOf(leq, ticks[k]).slots == 1)
            && SettingOf(leq, ticks[0]).order == [Equal(x), Equal(y)]
            && TotalSpent(leq, ticks, x) == (6 * n) as real && TotalSpent(leq, ticks, y) == 0.0
            && Lead(leq, ticks, x, y) == 1 + Sleeps(leq, ticks, x) + Wakes(leq, ticks, y)
            && Lead(leq, ticks, x, y) == 1 + Net(leq, ticks, x) - Net(leq, ticks, y)
            && 3 * TotalQuanta(leq, ticks, x) >= 2 * n
  {
    hide BusyChain, SettingOf, Tick;
    TicksAreChained(leq, x, y, n);
    forall k | 0 <= k < n ensures SettingOf(leq, Ticks(x, y, n)[k]).slots == 1 {
      TickSetting(leq, x, y, DeficitAt(k));
    }
    TickSetting(leq, x, y, DeficitAt(0));
    TicksCount(leq, x, y, n);
    TicksSleep(leq, x, y, n);
    PoorIsTwoThirds(n);
  }

  /** The same calls without end. */
  function Endless(x: string, y: string): nat -> Snapshot {
    (k: nat) => Tick(x, y, DeficitAt(k))
  }

  lemma {:induction false} EndlessBegins(x: string, y: string, n: nat)
    ensures Calls(Endless(x, y), n) == Ticks(x, y, n)
  {
    hide Tick, DeficitAt;
  }

  lemma LeadGrows(leq: Collation, x: string, y: string, n: nat)
    requires TwoProjects(leq, x, y)
    ensures 3 * Lead(leq, Ticks(x, y, n), x, y) >= 2 * n
  {
    hide Ticks, TotalQuanta;
    TicksCount(leq, x, y, n);
    PoorIsTwoThirds(n);
  }

  /** Continued for ever, the monopoly is a chain in which both projects are busy and the lead has
      no bound. */
  lemma MonopolyNeverEnds(leq: Collation, x: string, y: string, bound: int)
    requires TwoProjects(leq, x, y)
    ensures BusyForever(leq, Endless(x, y), x, y) && !LeadWithin(leq, Endless(x, y), x, y, bound)
  {
    hide BusyChain, Lead, Ticks, Endless;
    forall n: nat | n > 0 ensures BusyChain(leq, Calls(Endless(x, y), n), x, y) {
      TicksAreChained(leq, x, y, n);
      EndlessBegins(x, y, n);
    }
    var n: nat := if bound < 0 then 1 else 3 * bound + 3;
    EndlessBegins(x, y, n);
    LeadGrows(leq, x, y, n);
  }
}
