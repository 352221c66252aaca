/** The scheduling procedure itself: loops over run counts, queues, deficits and a cursor,
    proved to return the decision that Scheduler.Decide describes. */
module Schedule {
  import opened Scheduler
  import opened Scopes
  import opened Wrappers

  method CountActive(runs: seq<ActiveRun>) returns (load: Load)
    ensures load == LoadOf(runs)
  {
    var projectRuns: Counts, adapterRuns: Counts, accountRuns: Counts, scopes: ScopeTable := map[], map[], map[], map[];
    for i := 0 to |runs|
      invariant Load(projectRuns, adapterRuns, accountRuns, scopes) == LoadOf(runs[..i])
    {
      var run := runs[i];
      LoadStep(runs, i);
      projectRuns := Increment(projectRuns, run.projectId);
      adapterRuns := Increment(adapterRuns, run.adapterId);
      accountRuns := Increment(accountRuns, run.accountId);
      scopes := AddScopes(scopes, run.projectId, run.writeScopes);
    }
    assert runs[..|runs|] == runs;
    load := Load(projectRuns, adapterRuns, accountRuns, scopes);
  }

  lemma LoadStep(runs: seq<ActiveRun>, i: nat)
    requires i < |runs|
    ensures var before, run := LoadOf(runs[..i]), runs[i];
            LoadOf(runs[..i+1]) == Load(Increment(before.projectRuns, run.projectId),
                                        Increment(before.adapterRuns, run.adapterId),
                                        Increment(before.accountRuns, run.accountId),
                                        AddScopes(before.scopes, run.projectId, run.writeScopes))
  {
    var now := runs[..i+1];
    assert now[..i] == runs[..i];
    assert ProjectKeys(now)[..i] == ProjectKeys(runs[..i]);
    assert AdapterKeys(now)[..i] == AdapterKeys(runs[..i]);
    assert AccountKeys(now)[..i] == AccountKeys(runs[..i]);
  }

  method HasClash(table: ScopeTable, t: Task, unknownConflicts: bool) returns (r: bool)
    ensures r == Clashes(table, t, unknownConflicts)
  {
    hide Conflict, ScopesIn;
    var existing := ScopesIn(table, t.projectId);
    for i := 0 to |existing|
      invariant forall k :: 0 <= k < i ==> !Conflict(t.writeScopes, existing[k], unknownConflicts)
    {
      var c := WriteScopesConflict(t.writeScopes, existing[i], unknownConflicts);
      if c {
        return true;
      }
    }
    return false;
  }

  method AdmitTasks(snap: Snapshot, load: Load, tasks: seq<Task>)
    returns (queues: Queues, blocked: map<string, BlockReason>)
    ensures Admission(queues, blocked) == Admit(snap, load, tasks)
  {
    queues, blocked := map[], map[];
    for i := 0 to |tasks|
      invariant Admission(queues, blocked) == Admit(snap, load, tasks[..i])
    {
      assert tasks[..i+1][..i] == tasks[..i];
      var task := tasks[i];
      var project := ProjectById(snap.projects, task.projectId);
      if project.None? || project.value.trustState != Trusted {
        blocked := blocked[task.id := BlockedTrust];
        continue;
      }
      if task.id !in snap.routeByTask {
        blocked := blocked[task.id := BlockedRoute];
        continue;
      }
      var route := snap.routeByTask[task.id];
      if Count(load.projectRuns, task.projectId) >= snap.limits.perProjectMaxRuns
         || AtLimit(Count(load.adapterRuns, route.adapterId), snap.limits.perAdapterMaxRuns, route.adapterId)
         || AtLimit(Count(load.accountRuns, route.accountId), snap.limits.perAccountMaxRuns, route.accountId)
      {
        blocked := blocked[task.id := BlockedConcurrency];
        continue;
      }
      var conflicts := HasClash(load.scopes, task, snap.limits.unknownWriteScopeConflicts);
      if conflicts {
        blocked := blocked[task.id := BlockedConflict];
        continue;
      }
      queues := queues[task.projectId := QueueOf(queues, task.projectId) + [task]];
    }
    assert tasks[..|tasks|] == tasks;
  }

  method BlockQueue(blocked: map<string, BlockReason>, tasks: seq<Task>) returns (blocked': map<string, BlockReason>)
    ensures blocked' == Block(blocked, tasks, BlockedConcurrency)
  {
    blocked' := blocked;
    for i := 0 to |tasks|
      invariant blocked' == Block(blocked, tasks[..i], BlockedConcurrency)
    {
      assert tasks[..i+1][..i] == tasks[..i];
      blocked' := blocked'[tasks[i].id := BlockedConcurrency];
    }
    assert tasks[..|tasks|] == tasks;
  }

  method RouteRefusal(env: Setting, load: Load, task: Task, ghost st: State) returns (reason: Option<BlockReason>)
    requires LoadIn(st) == load
    ensures reason == Refusal(env, st, task)
  {
    var conflicts := HasClash(load.scopes, task, env.limits.unknownWriteScopeConflicts);
    if conflicts {
      return Some(BlockedConflict);
    }
    if task.id !in env.routeByTask {
      return Some(BlockedRoute);
    }
    var route := env.routeByTask[task.id];
    if AtLimit(Count(load.adapterRuns, route.adapterId), env.limits.perAdapterMaxRuns, route.adapterId)
       || AtLimit(Count(load.accountRuns, route.accountId), env.limits.perAccountMaxRuns, route.accountId)
    {
      return Some(BlockedConcurrency);
    }
    return None;
  }

  ghost function LoadIn(st: State): Load {
    Load(st.projectRuns, st.adapterRuns, st.accountRuns, st.scopes)
  }

  /** The program's variables hold what the specification's state holds. */
  ghost predicate Mirrors(st: State, selected: seq<string>, queues: Queues, deficits: map<string, real>,
                          blocked: map<string, BlockReason>, load: Load, cursor: nat, idle: nat) {
    && selected == TaskIds(st.selected) && queues == st.queues && deficits == st.deficits && blocked == st.blocked
    && load == LoadIn(st) && cursor == st.cursor && idle == st.idle
  }

  /** The run counts and write scopes after a task has been selected. */
  method Occupy(load: Load, project: Project, task: Task, route: Route) returns (load': Load)
    ensures load' == Load(Increment(load.projectRuns, project.id), Increment(load.adapterRuns, route.adapterId),
                          Increment(load.accountRuns, route.accountId),
                          AddScopes(load.scopes, project.id, task.writeScopes))
  {
    var projectRuns := Increment(load.projectRuns, project.id);
    var adapterRuns := Increment(load.adapterRuns, route.adapterId);
    var accountRuns := Increment(load.accountRuns, route.accountId);
    load' := Load(projectRuns, adapterRuns, accountRuns, AddScopes(load.scopes, project.id, task.writeScopes));
  }

  ghost function Resolve(env: Setting, st: State, project: Project, queue: seq<Task>): State
    requires st.cursor < |env.order| && queue != []
  {
    match Refusal(env, st, queue[0])
    case Some(reason) => Drop(env, st, project, queue[0], queue[1..], reason)
    case None => Select(env, st, project, queue[0], queue[1..])
  }

  lemma ServeResolves(env: Setting, st: State, p: Project, queue: seq<Task>)
    requires st.cursor < |env.order| && queue != []
    ensures var cost := Cost(queue[0].effort);
            var funded := Funded(st, p, cost);
            Serve(env, st, p, queue) == if DeficitOf(funded.deficits, p.id) < cost then Pass(env, funded)
                                        else Resolve(env, funded, p, queue)
  {
    assert Refusal(env, Funded(st, p, Cost(queue[0].effort)), queue[0]) == Refusal(env, st, queue[0]);
  }

  lemma TaskIdsSnoc(tasks: seq<Task>, t: Task)
    ensures TaskIds(tasks + [t]) == TaskIds(tasks) + [t.id]
  {
  }

  /** Keeps or advances the cursor after a selection. */
  method NextCursor(env: Setting, index: nat, rest: seq<Task>, picked: nat, deficit: real, cost: real, ghost st: State)
    returns (cursor: nat)
    requires index < |env.order| && picked == |st.selected|
    ensures cursor == if Stays(env, st, rest, deficit, cost) then index else Advance(index, |env.order|)
  {
    cursor := Advance(index, |env.order|);
    if |rest| > 0 {
      if deficit >= Cost(rest[0].effort) {
        cursor := index;
      }
    } else if picked >= env.slots && deficit >= cost {
      cursor := index;
    }
  }

  /** The part of a visit that follows once the head of the queue has been paid for. */
  method TakeHead(env: Setting, ghost st: State, project: Project, queue: seq<Task>, selected0: seq<string>,
                  queues0: Queues, deficits0: map<string, real>, blocked0: map<string, BlockReason>, load0: Load,
                  index: nat, idle0: nat)
    returns (selected: seq<string>, queues: Queues, deficits: map<string, real>, blocked: map<string, BlockReason>,
             load: Load, cursor: nat, idle: nat, ghost next: State)
    requires st.cursor == index < |env.order| && queue != []
    requires Mirrors(st, selected0, queues0, deficits0, blocked0, load0, index, idle0)
    ensures next == Resolve(env, st, project, queue)
    ensures Mirrors(next, selected, queues, deficits, blocked, load, cursor, idle)
  {
    hide Refusal, Clashes, AddScopes, Increment, Cost, Advances;
    selected, deficits, blocked, load := selected0, deficits0, blocked0, load0;
    var task := queue[0];
    var rest := queue[1..];
    queues := queues0[project.id := rest];
    var refusal := RouteRefusal(env, load, task, st);
    if refusal.Some? {
      blocked := blocked[task.id := refusal.value];
      cursor, idle := Advance(index, |env.order|), idle0 + 1;
      next := Drop(env, st, project, task, rest, refusal.value);
      return;
    }
    next := Select(env, st, project, task, rest);
    TaskIdsSnoc(st.selected, task);
    var cost := Cost(task.effort);
    selected := selected + [task.id];
    deficits := deficits[project.id := DeficitOf(deficits, project.id) - cost];
    load := Occupy(load, project, task, env.routeByTask[task.id]);
    cursor := NextCursor(env, index, rest, |selected|, deficits[project.id], cost, next);
    idle := 0;
  }

  /** Adds the project's quantum when it cannot afford the cost. */
  method AddQuantum(deficits0: map<string, real>, project: Project, cost: real, ghost st: State)
    returns (deficits: map<string, real>)
    requires deficits0 == st.deficits
    ensures deficits == Funded(st, project, cost).deficits
  {
    deficits := deficits0;
    if DeficitOf(deficits, project.id) < cost {
      deficits := deficits[project.id := DeficitOf(deficits, project.id) + Quantum(project)];
    }
  }

  /** A visit to a project that has waiting tasks and may start another run. */
  method ServeHead(env: Setting, ghost st: State, project: Project, queue: seq<Task>, selected0: seq<string>,
                   queues0: Queues, deficits0: map<string, real>, blocked0: map<string, BlockReason>, load0: Load,
                   index: nat, idle0: nat)
    returns (selected: seq<string>, queues: Queues, deficits: map<string, real>, blocked: map<string, BlockReason>,
             load: Load, cursor: nat, idle: nat)
    requires st.cursor == index < |env.order| && queue != []
    requires Mirrors(st, selected0, queues0, deficits0, blocked0, load0, index, idle0)
    ensures Mirrors(Serve(env, st, project, queue), selected, queues, deficits, blocked, load, cursor, idle)
  {
    hide Serve, Resolve, Cost, Funded, TaskIds, Advances;
    selected, queues, deficits, blocked, load, idle := selected0, queues0, deficits0, blocked0, load0, idle0;
    ServeResolves(env, st, project, queue);
    var cost := Cost(queue[0].effort);
    ghost var funded := Funded(st, project, cost);
    deficits := AddQuantum(deficits, project, cost, st);
    if DeficitOf(deficits, project.id) < cost {
      idle := idle + 1;
      cursor := Advance(index, |env.order|);
      return;
    }
    ghost var next;
    selected, queues, deficits, blocked, load, cursor, idle, next :=
      TakeHead(env, funded, project, queue, selected, queues, deficits, blocked, load, index, idle);
  }

  /** One visit to the project under the cursor. */
  method ServeVisit(env: Setting, ghost st: State, selected0: seq<string>, queues0: Queues,
      deficits0: map<string, real>, blocked0: map<string, BlockReason>, load0: Load, index: nat, idle0: nat)
    returns (selected: seq<string>, queues: Queues, deficits: map<string, real>, blocked: map<string, BlockReason>,
             load: Load, cursor: nat, idle: nat)
    requires st.cursor == index < |env.order|
    requires Mirrors(st, selected0, queues0, deficits0, blocked0, load0, index, idle0)
    ensures Mirrors(Visit(env, st), selected, queues, deficits, blocked, load, cursor, idle)
  {
    hide Serve, Block;
    selected, queues, deficits, blocked, load, idle := selected0, queues0, deficits0, blocked0, load0, idle0;
    var project := env.order[index];
    cursor := Advance(index, |env.order|);
    var queue := QueueOf(queues, project.id);
    if |queue| == 0 {
      idle := idle + 1;
      return;
    }
    if Count(load.projectRuns, project.id) >= env.limits.perProjectMaxRuns {
      queues := queues[project.id := []];
      blocked := BlockQueue(blocked, queue);
      idle := idle + 1;
      return;
    }
    selected, queues, deficits, blocked, load, cursor, idle :=
      ServeHead(env, st, project, queue, selected, queues, deficits, blocked, load, index, idle);
  }

  /** The weighted deficit round robin loop. */
  method ServeQueues(env: Setting, ghost start: State, queues0: Queues, deficits0: map<string, real>,
                     blocked0: map<string, BlockReason>, load0: Load, cursor0: nat)
    returns (selected: seq<string>, queues: Queues, deficits: map<string, real>, blocked: map<string, BlockReason>,
             cursor: nat, ghost end: State)
    requires env.order != [] ==> cursor0 < |env.order|
    requires start == State(queues0, deficits0, blocked0, [], load0.projectRuns, load0.adapterRuns, load0.accountRuns,
                            load0.scopes, cursor0, 0, map[])
    ensures end == Run(env, start)
    ensures selected == TaskIds(end.selected)
    ensures queues == end.queues && deficits == end.deficits && blocked == end.blocked && cursor == end.cursor
  {
    hide Visit, Waiting;
    queues, deficits, blocked, cursor := queues0, deficits0, blocked0, cursor0;
    var load: Load, idle: nat := load0, 0;
    selected := [];
    end := start;
    while |selected| < env.slots && Waiting(queues) && idle < MaxIdle(env)
      invariant env.order != [] ==> cursor < |env.order|
      invariant Mirrors(end, selected, queues, deficits, blocked, load, cursor, idle)
      invariant Run(env, end) == Run(env, start)
      decreases env.slots - |selected|, MaxIdle(env) - idle
    {
      if |env.order| == 0 {
        break;
      }
      ghost var st := end;
      end := Visit(env, st);
      selected, queues, deficits, blocked, load, cursor, idle :=
        ServeVisit(env, st, selected, queues, deficits, blocked, load, cursor, idle);
    }
  }

  /** Blocks what is left in the queues. */
  method BlockRemaining(queues: Queues, blocked: map<string, BlockReason>) returns (blocked': map<string, BlockReason>)
    ensures blocked' == BlockRest(queues, blocked)
  {
    blocked' := blocked;
    var left := QueuedIds(queues);
    while left != {}
      invariant left <= QueuedIds(queues)
      invariant blocked'.Keys == blocked.Keys + (QueuedIds(queues) - left)
      invariant forall id :: id in blocked' ==>
                  blocked'[id] == if id in blocked then blocked[id] else BlockedConcurrency
      decreases left
    {
      var id :| id in left;
      if id !in blocked' {
        blocked' := blocked'[id := BlockedConcurrency];
      }
      left := left - {id};
    }
  }

  method RunSchedule(leq: Collation, snap: Snapshot) returns (d: Decision)
    ensures d == Decide(leq, snap)
  {
    var load := CountActive(snap.activeRuns);
    var queues0, blocked0 := AdmitTasks(snap, load, StableOrder(leq, snap.readyTasks));
    var env := SettingOf(leq, snap);
    var cursor0 := StartingCursor(env.order, snap.cursorProjectId);
    var selected, queues, deficits, blocked, cursor, end :=
      ServeQueues(env, Initial(leq, snap), queues0, StartingDeficits(snap), blocked0, load, cursor0);
    blocked := BlockRemaining(queues, blocked);
    d := Decision(selected, blocked, deficits, CursorId(env.order, cursor));
  }
}
