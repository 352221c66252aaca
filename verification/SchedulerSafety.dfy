/** What a scheduling decision never violates: the concurrency limits and the exclusion of
    conflicting write scopes. */
module SchedulerSafety {
  import opened Scheduler
  import opened SchedulerRuns
  import opened Scopes

  // ------------------------------------------------------------ counting

  lemma {:induction false} TallyCounts(keys: seq<string>, key: string)
    ensures Count(Tally(keys), key) == multiset(keys)[key]
  {
    if keys == [] {
    } else {
      TallyCounts(keys[..|keys|-1], key);
      assert keys == keys[..|keys|-1] + [keys[|keys|-1]];
    }
  }

  lemma TallySnoc(keys: seq<string>, key: string)
    ensures Tally(keys + [key]) == Increment(Tally(keys), key)
  {
    assert (keys + [key])[..|keys|] == keys;
  }

  function TaskProjects(tasks: seq<Task>): seq<string> {
    seq(|tasks|, i requires 0 <= i < |tasks| => tasks[i].projectId)
  }

  function RouteOf(routes: map<string, Route>, t: Task): Route {
    if t.id in routes then routes[t.id] else Route("", "")
  }

  function TaskAdapters(routes: map<string, Route>, tasks: seq<Task>): seq<string> {
    seq(|tasks|, i requires 0 <= i < |tasks| => RouteOf(routes, tasks[i]).adapterId)
  }

  function TaskAccounts(routes: map<string, Route>, tasks: seq<Task>): seq<string> {
    seq(|tasks|, i requires 0 <= i < |tasks| => RouteOf(routes, tasks[i]).accountId)
  }

  /** The run counts say how often each key occurs among the active and the selected. */
  ghost predicate Counted(env: Setting, runs: seq<ActiveRun>, st: State) {
    && st.projectRuns == Tally(ProjectKeys(runs) + TaskProjects(st.selected))
    && st.adapterRuns == Tally(AdapterKeys(runs) + TaskAdapters(env.routeByTask, st.selected))
    && st.accountRuns == Tally(AccountKeys(runs) + TaskAccounts(env.routeByTask, st.selected))
  }

  ghost predicate Homogeneous(queues: Queues) {
    forall id, t :: id in queues && t in queues[id] ==> t.projectId == id
  }

  lemma VisitHomogeneous(env: Setting, st: State)
    requires st.cursor < |env.order| && Homogeneous(st.queues)
    ensures Homogeneous(Visit(env, st).queues)
    ensures HeadQueue(env, st) != [] ==> HeadQueue(env, st)[0].projectId == Visited(env, st).id
  {
    QueuesAfter(env, st, KindOf(env, st));
    var queue := HeadQueue(env, st);
    assert forall t :: t in queue ==> t.projectId == Visited(env, st).id;
    assert queue != [] ==> forall t :: t in queue[1..] ==> t in queue;
    assert forall t :: t in QueueAfter(env, st) ==> t in queue;
  }

  /** total is within the limit, or no more than what was already active. */
  ghost predicate Within(total: nat, active: nat, limit: int) {
    total <= active || total <= limit
  }

  ghost predicate LimitsKept(env: Setting, runs: seq<ActiveRun>, selected: seq<Task>) {
    && |selected| <= env.slots
    && (forall id :: Within(multiset(ProjectKeys(runs) + TaskProjects(selected))[id], multiset(ProjectKeys(runs))[id],
                            env.limits.perProjectMaxRuns))
    && (forall id :: id in env.limits.perAdapterMaxRuns ==>
          Within(multiset(AdapterKeys(runs) + TaskAdapters(env.routeByTask, selected))[id],
                 multiset(AdapterKeys(runs))[id], env.limits.perAdapterMaxRuns[id]))
    && (forall id :: id in env.limits.perAccountMaxRuns ==>
          Within(multiset(AccountKeys(runs) + TaskAccounts(env.routeByTask, selected))[id],
                 multiset(AccountKeys(runs))[id], env.limits.perAccountMaxRuns[id]))
  }

  ghost predicate SafeLoad(env: Setting, runs: seq<ActiveRun>, st: State) {
    Homogeneous(st.queues) && Counted(env, runs, st) && LimitsKept(env, runs, st.selected)
  }

  /** One more key below its limit keeps that list of keys within the limits. */
  lemma OneMoreWithin(keys: seq<string>, active: seq<string>, key: string, limit: int)
    requires multiset(keys)[key] < limit
    requires forall id :: Within(multiset(keys)[id], multiset(active)[id], limit)
    ensures forall id :: Within(multiset(keys + [key])[id], multiset(active)[id], limit)
  {
    assert multiset(keys + [key]) == multiset(keys) + multiset{key};
  }

  lemma OneMoreWithinTable(keys: seq<string>, active: seq<string>, key: string, limits: map<string, int>)
    requires !AtLimit(multiset(keys)[key], limits, key)
    requires forall id :: id in limits ==> Within(multiset(keys)[id], multiset(active)[id], limits[id])
    ensures forall id :: id in limits ==> Within(multiset(keys + [key])[id], multiset(active)[id], limits[id])
  {
    assert multiset(keys + [key]) == multiset(keys) + multiset{key};
  }

  lemma KeysSnoc(routes: map<string, Route>, runs: seq<ActiveRun>, selected: seq<Task>, t: Task)
    ensures ProjectKeys(runs) + TaskProjects(selected + [t])
            == ProjectKeys(runs) + TaskProjects(selected) + [t.projectId]
    ensures AdapterKeys(runs) + TaskAdapters(routes, selected + [t])
         == AdapterKeys(runs) + TaskAdapters(routes, selected) + [RouteOf(routes, t).adapterId]
    ensures AccountKeys(runs) + TaskAccounts(routes, selected + [t])
         == AccountKeys(runs) + TaskAccounts(routes, selected) + [RouteOf(routes, t).accountId]
  {
  }

  lemma SelectingCounts(env: Setting, runs: seq<ActiveRun>, st: State)
    requires st.cursor < |env.order| && KindOf(env, st) == Selects && Homogeneous(st.queues) && Counted(env, runs, st)
    ensures Counted(env, runs, Visit(env, st))
  {
    WhenSelecting(env, st);
    VisitHomogeneous(env, st);
    var t := HeadQueue(env, st)[0];
    var route := RouteOf(env.routeByTask, t);
    KeysSnoc(env.routeByTask, runs, st.selected, t);
    TallySnoc(ProjectKeys(runs) + TaskProjects(st.selected), t.projectId);
    TallySnoc(AdapterKeys(runs) + TaskAdapters(env.routeByTask, st.selected), route.adapterId);
    TallySnoc(AccountKeys(runs) + TaskAccounts(env.routeByTask, st.selected), route.accountId);
  }

  lemma SelectingKeepsLimits(env: Setting, runs: seq<ActiveRun>, st: State)
    requires st.cursor < |env.order| && KindOf(env, st) == Selects && SafeLoad(env, runs, st)
    requires |st.selected| < env.slots
    ensures LimitsKept(env, runs, Visit(env, st).selected)
  {
    WhenSelecting(env, st);
    VisitHomogeneous(env, st);
    var t := HeadQueue(env, st)[0];
    var route := RouteOf(env.routeByTask, t);
    var projects := ProjectKeys(runs) + TaskProjects(st.selected);
    var adapters := AdapterKeys(runs) + TaskAdapters(env.routeByTask, st.selected);
    var accounts := AccountKeys(runs) + TaskAccounts(env.routeByTask, st.selected);
    KeysSnoc(env.routeByTask, runs, st.selected, t);
    TallyCounts(projects, t.projectId);
    TallyCounts(adapters, route.adapterId);
    TallyCounts(accounts, route.accountId);
    OneMoreWithin(projects, ProjectKeys(runs), t.projectId, env.limits.perProjectMaxRuns);
    OneMoreWithinTable(adapters, AdapterKeys(runs), route.adapterId, env.limits.perAdapterMaxRuns);
    OneMoreWithinTable(accounts, AccountKeys(runs), route.accountId, env.limits.perAccountMaxRuns);
  }

  lemma VisitKeepsLoad(env: Setting, runs: seq<ActiveRun>, st: State)
    requires st.cursor < |env.order| && Continues(env, st) && SafeLoad(env, runs, st)
    ensures SafeLoad(env, runs, Visit(env, st))
  {
    VisitHomogeneous(env, st);
    if KindOf(env, st) == Selects {
      SelectingCounts(env, runs, st);
      SelectingKeepsLimits(env, runs, st);
    } else {
      WhenPassing(env, st);
    }
  }

  // ------------------------------------------------------- write scopes

  ghost predicate Listed(scopes: seq<string>, table: ScopeTable, id: string) {
    exists i :: 0 <= i < |ScopesIn(table, id)| && ScopesIn(table, id)[i] == scopes
  }

  /** No selected task conflicts with an active run or an earlier selected task of its project. */
  ghost predicate Exclusive(runs: seq<ActiveRun>, selected: seq<Task>, unknownConflicts: bool) {
    && (forall j, i :: 0 <= j < |selected| && 0 <= i < |runs| && runs[i].projectId == selected[j].projectId ==>
          !Conflict(selected[j].writeScopes, runs[i].writeScopes, unknownConflicts))
    && (forall j, i :: 0 <= i < j < |selected| && selected[i].projectId == selected[j].projectId ==>
          !Conflict(selected[j].writeScopes, selected[i].writeScopes, unknownConflicts))
  }

  ghost predicate SafeScopes(env: Setting, runs: seq<ActiveRun>, st: State) {
    && Homogeneous(st.queues)
    && (forall i :: 0 <= i < |runs| ==> Listed(runs[i].writeScopes, st.scopes, runs[i].projectId))
    && (forall i :: 0 <= i < |st.selected| ==> Listed(st.selected[i].writeScopes, st.scopes, st.selected[i].projectId))
    && Exclusive(runs, st.selected, env.limits.unknownWriteScopeConflicts)
  }

  lemma AddKeepsListed(scopes: seq<string>, table: ScopeTable, id: string, other: string, more: seq<string>)
    ensures Listed(scopes, table, id) ==> Listed(scopes, AddScopes(table, other, more), id)
    ensures Listed(more, AddScopes(table, other, more), other)
  {
    var table' := AddScopes(table, other, more);
    if i :| 0 <= i < |ScopesIn(table, id)| && ScopesIn(table, id)[i] == scopes {
      assert ScopesIn(table', id)[i] == scopes;
    }
    assert ScopesIn(table', other)[|ScopesIn(table, other)|] == more;
  }

  lemma NoClashNoConflict(table: ScopeTable, t: Task, scopes: seq<string>, unknownConflicts: bool)
    requires !Clashes(table, t, unknownConflicts) && Listed(scopes, table, t.projectId)
    ensures !Conflict(t.writeScopes, scopes, unknownConflicts)
  {
  }

  lemma ExclusiveSnoc(runs: seq<ActiveRun>, selected: seq<Task>, t: Task, table: ScopeTable, unknownConflicts: bool)
    requires Exclusive(runs, selected, unknownConflicts) && !Clashes(table, t, unknownConflicts)
    requires forall i :: 0 <= i < |runs| ==> Listed(runs[i].writeScopes, table, runs[i].projectId)
    requires forall i :: 0 <= i < |selected| ==> Listed(selected[i].writeScopes, table, selected[i].projectId)
    ensures Exclusive(runs, selected + [t], unknownConflicts)
  {
    forall i | 0 <= i < |runs| && runs[i].projectId == t.projectId
      ensures !Conflict(t.writeScopes, runs[i].writeScopes, unknownConflicts)
    {
      NoClashNoConflict(table, t, runs[i].writeScopes, unknownConflicts);
    }
    forall i | 0 <= i < |selected| && selected[i].projectId == t.projectId
      ensures !Conflict(t.writeScopes, selected[i].writeScopes, unknownConflicts)
    {
      NoClashNoConflict(table, t, selected[i].writeScopes, unknownConflicts);
    }
  }

  lemma VisitKeepsScopes(env: Setting, runs: seq<ActiveRun>, st: State)
    requires st.cursor < |env.order| && SafeScopes(env, runs, st)
    ensures SafeScopes(env, runs, Visit(env, st))
  {
    VisitHomogeneous(env, st);
    var next := Visit(env, st);
    if KindOf(env, st) == Selects {
      WhenSelecting(env, st);
      var t := HeadQueue(env, st)[0];
      ExclusiveSnoc(runs, st.selected, t, st.scopes, env.limits.unknownWriteScopeConflicts);
      forall i | 0 <= i < |runs| ensures Listed(runs[i].writeScopes, next.scopes, runs[i].projectId) {
        AddKeepsListed(runs[i].writeScopes, st.scopes, runs[i].projectId, t.projectId, t.writeScopes);
      }
      forall i | 0 <= i < |next.selected|
          ensures Listed(next.selected[i].writeScopes, next.scopes, next.selected[i].projectId) {
        AddKeepsListed(next.selected[i].writeScopes, st.scopes, next.selected[i].projectId, t.projectId, t.writeScopes);
      }
    } else {
      WhenPassing(env, st);
    }
  }

  lemma {:induction false} ActiveScopesListed(runs: seq<ActiveRun>, i: nat)
    requires i < |runs|
    ensures Listed(runs[i].writeScopes, ActiveTable(runs), runs[i].projectId)
  {
    var last := |runs| - 1;
    var r := runs[last];
    AddKeepsListed(runs[i].writeScopes, ActiveTable(runs[..last]), runs[i].projectId, r.projectId, r.writeScopes);
    if i == last {
    } else {
      ActiveScopesListed(runs[..last], i);
    }
  }

  // ------------------------------------------------------- initial state

  lemma {:induction false} AdmitHomogeneous(snap: Snapshot, load: Load, tasks: seq<Task>)
    ensures Homogeneous(Admit(snap, load, tasks).queues)
  {
    if tasks == [] {
    } else {
      AdmitHomogeneous(snap, load, tasks[..|tasks|-1]);
    }
  }

  lemma InitialLoadIsSafe(leq: Collation, snap: Snapshot)
    ensures SafeLoad(SettingOf(leq, snap), snap.activeRuns, Initial(leq, snap))
  {
    var runs := snap.activeRuns;
    AdmitHomogeneous(snap, LoadOf(runs), StableOrder(leq, snap.readyTasks));
    assert ProjectKeys(runs) + [] == ProjectKeys(runs);
    assert AdapterKeys(runs) + [] == AdapterKeys(runs);
    assert AccountKeys(runs) + [] == AccountKeys(runs);
  }

  lemma InitialScopesAreSafe(leq: Collation, snap: Snapshot)
    ensures SafeScopes(SettingOf(leq, snap), snap.activeRuns, Initial(leq, snap))
  {
    var runs := snap.activeRuns;
    AdmitHomogeneous(snap, LoadOf(runs), StableOrder(leq, snap.readyTasks));
    forall i | 0 <= i < |runs| ensures Listed(runs[i].writeScopes, ActiveTable(runs), runs[i].projectId) {
      ActiveScopesListed(runs, i);
    }
  }

  // -------------------------------------------------------- main results

  /** Active and selected runs together stay within every limit, except where more runs were
      active already: over all, per project, per adapter and per account. */
  lemma ConcurrencyIsBounded(leq: Collation, snap: Snapshot)
    ensures LimitsKept(SettingOf(leq, snap), snap.activeRuns, Final(leq, snap).selected)
    ensures Within(|snap.activeRuns| + |Decide(leq, snap).selectedTaskIds|, |snap.activeRuns|,
                   snap.limits.globalMaxRuns)
  {
    var env := SettingOf(leq, snap);
    var holds := (s: State) => SafeLoad(env, snap.activeRuns, s);
    InitialLoadIsSafe(leq, snap);
    forall s | holds(s) && Continues(env, s) && s.cursor < |env.order| ensures holds(Visit(env, s)) {
      VisitKeepsLoad(env, snap.activeRuns, s);
    }
    RunInduction(env, Initial(leq, snap), holds);
  }

  /** No selected task conflicts with an active run, or with a task selected before it, of its project. */
  lemma WriteScopesAreExclusive(leq: Collation, snap: Snapshot)
    ensures Exclusive(snap.activeRuns, Final(leq, snap).selected, snap.limits.unknownWriteScopeConflicts)
  {
    var env := SettingOf(leq, snap);
    var holds := (s: State) => SafeScopes(env, snap.activeRuns, s);
    InitialScopesAreSafe(leq, snap);
    forall s | holds(s) && Continues(env, s) && s.cursor < |env.order| ensures holds(Visit(env, s)) {
      VisitKeepsScopes(env, snap.activeRuns, s);
    }
    RunInduction(env, Initial(leq, snap), holds);
  }
}
