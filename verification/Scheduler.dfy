/** The cross-project scheduler: weighted deficit round robin under concurrency limits and
    write-scope exclusion. Weights, costs and deficits are real numbers. */
module Scheduler {
  import opened Orders
  import opened Scopes
  import opened Wrappers

  datatype Effort = Off | Low | Medium | High | Max

  datatype TrustState = Untrusted | Trusted | Revoked

  datatype Weight = Finite(value: real) | NotFinite

  datatype Project = Project(id: string, trustState: TrustState, weight: Weight)

  datatype Task = Task(
    id: string, projectId: string, effort: Effort, priority: real, readyAt: Option<string>, writeScopes: seq<string>)

  datatype ActiveRun = ActiveRun(taskId: string, projectId: string, adapterId: string, accountId: string,
      writeScopes: seq<string>)

  datatype Route = Route(adapterId: string, accountId: string)

  datatype Limits = Limits(
    globalMaxRuns: int, perProjectMaxRuns: int,
    perAdapterMaxRuns: map<string, int>, perAccountMaxRuns: map<string, int>,
    unknownWriteScopeConflicts: bool)

  datatype Snapshot = Snapshot(
    projects: seq<Project>, readyTasks: seq<Task>, activeRuns: seq<ActiveRun>, routeByTask: map<string, Route>,
    limits: Limits, deficits: map<string, real>, cursorProjectId: Option<string>)

  datatype BlockReason = BlockedTrust | BlockedRoute | BlockedConcurrency | BlockedConflict

  datatype Decision = Decision(
    selectedTaskIds: seq<string>, blocked: map<string, BlockReason>, deficits: map<string, real>,
    cursorProjectId: Option<string>)

  type Collation = (string, string) -> bool  // localeCompare(a, b) <= 0

  function Cost(effort: Effort): real {
    match effort
    case Off => 1.0
    case Low => 1.0
    case Medium => 2.0
    case High => 4.0
    case Max => 6.0
  }

  /** The weight the scheduler works with: within [0.1, 100], and 1 when not finite. */
  function Clamped(w: Weight): (r: real)
    ensures 0.1 <= r <= 100.0
  {
    match w
    case NotFinite => 1.0
    case Finite(v) => if v < 0.1 then 0.1 else if v > 100.0 then 100.0 else v
  }

  function Quantum(p: Project): real {
    Clamped(p.weight) * 2.0
  }

  // -------------------------------------------------------------- orders

  function ReadyKey(t: Task): string {
    match t.readyAt case None => "" case Some(s) => s
  }

  /** Higher priority first, then earlier readiness, then identifier. */
  predicate TaskLeq(leq: Collation, a: Task, b: Task) {
    a.priority > b.priority
    || (a.priority == b.priority
        && (if ReadyKey(a) != ReadyKey(b) then leq(ReadyKey(a), ReadyKey(b)) else leq(a.id, b.id)))
  }

  function StableOrder(leq: Collation, tasks: seq<Task>): seq<Task> {
    Sort(tasks, (a, b) => TaskLeq(leq, a, b))
  }

  function ProjectOrder(leq: Collation, projects: seq<Project>): seq<Project> {
    Sort(projects, (a: Project, b: Project) => leq(a.id, b.id))
  }

  // -------------------------------------------------------------- counts

  type Counts = map<string, nat>

  function Count(counts: Counts, key: string): nat {
    if key in counts then counts[key] else 0
  }

  function Increment(counts: Counts, key: string): Counts {
    counts[key := Count(counts, key) + 1]
  }

  function Tally(keys: seq<string>): Counts {
    if keys == [] then map[] else Increment(Tally(keys[..|keys|-1]), keys[|keys|-1])
  }

  predicate AtLimit(count: nat, limits: map<string, int>, key: string) {
    key in limits && count >= limits[key]
  }

  type ScopeTable = map<string, seq<seq<string>>>

  function ScopesIn(table: ScopeTable, projectId: string): seq<seq<string>> {
    if projectId in table then table[projectId] else []
  }

  function AddScopes(table: ScopeTable, projectId: string, scopes: seq<string>): ScopeTable {
    table[projectId := ScopesIn(table, projectId) + [scopes]]
  }

  predicate Clashes(table: ScopeTable, t: Task, unknownConflicts: bool) {
    exists i :: 0 <= i < |ScopesIn(table, t.projectId)|
                && Conflict(t.writeScopes, ScopesIn(table, t.projectId)[i], unknownConflicts)
  }

  function ProjectKeys(runs: seq<ActiveRun>): seq<string> {
    seq(|runs|, i requires 0 <= i < |runs| => runs[i].projectId)
  }

  function AdapterKeys(runs: seq<ActiveRun>): seq<string> {
    seq(|runs|, i requires 0 <= i < |runs| => runs[i].adapterId)
  }

  function AccountKeys(runs: seq<ActiveRun>): seq<string> {
    seq(|runs|, i requires 0 <= i < |runs| => runs[i].accountId)
  }

  function ActiveTable(runs: seq<ActiveRun>): ScopeTable {
    if runs == [] then map[] else
      var r := runs[|runs|-1];
      AddScopes(ActiveTable(runs[..|runs|-1]), r.projectId, r.writeScopes)
  }

  // ------------------------------------------------- admission of tasks

  /** What the loop over the active runs leaves behind. */
  datatype Load = Load(projectRuns: Counts, adapterRuns: Counts, accountRuns: Counts, scopes: ScopeTable)

  function LoadOf(runs: seq<ActiveRun>): Load {
    Load(Tally(ProjectKeys(runs)), Tally(AdapterKeys(runs)), Tally(AccountKeys(runs)), ActiveTable(runs))
  }

  /** projects as a table: for a repeated identifier the last entry counts. */
  function ProjectById(projects: seq<Project>, id: string): Option<Project> {
    if projects == [] then None
    else if projects[|projects|-1].id == id then Some(projects[|projects|-1])
    else ProjectById(projects[..|projects|-1], id)
  }

  /** Why a ready task cannot enter a queue; None when it can. */
  function Obstacle(snap: Snapshot, load: Load, t: Task): Option<BlockReason> {
    var project := ProjectById(snap.projects, t.projectId);
    if project.None? || project.value.trustState != Trusted then Some(BlockedTrust)
    else if t.id !in snap.routeByTask then Some(BlockedRoute)
    else
      var route := snap.routeByTask[t.id];
      if Count(load.projectRuns, t.projectId) >= snap.limits.perProjectMaxRuns
         || AtLimit(Count(load.adapterRuns, route.adapterId), snap.limits.perAdapterMaxRuns, route.adapterId)
         || AtLimit(Count(load.accountRuns, route.accountId), snap.limits.perAccountMaxRuns, route.accountId)
      then Some(BlockedConcurrency)
      else if Clashes(load.scopes, t, snap.limits.unknownWriteScopeConflicts) then Some(BlockedConflict)
      else None
  }

  type Queues = map<string, seq<Task>>

  function QueueOf(queues: Queues, projectId: string): seq<Task> {
    if projectId in queues then queues[projectId] else []
  }

  datatype Admission = Admission(queues: Queues, blocked: map<string, BlockReason>)

  function Admit(snap: Snapshot, load: Load, tasks: seq<Task>): Admission {
    if tasks == [] then Admission(map[], map[])
    else
      var before := Admit(snap, load, tasks[..|tasks|-1]);
      AdmitOne(snap, load, before, tasks[|tasks|-1])
  }

  function AdmitOne(snap: Snapshot, load: Load, before: Admission, t: Task): Admission {
    match Obstacle(snap, load, t)
    case Some(reason) => before.(blocked := before.blocked[t.id := reason])
    case None => before.(queues := before.queues[t.projectId := QueueOf(before.queues, t.projectId) + [t]])
  }

  function StartingDeficits(snap: Snapshot): map<string, real> {
    map id | id in (set p | p in snap.projects :: p.id) :: if id in snap.deficits then snap.deficits[id] else 0.0
  }

  // --------------------------------------------------- one visit of the loop

  /** What the loop reads but never changes. */
  datatype Setting = Setting(order: seq<Project>, routeByTask: map<string, Route>, limits: Limits, slots: nat)

  /** The loop's variables. quanta counts, for each project, how often a quantum was added;
      the program has no such variable. */
  datatype State = State(
    queues: Queues, deficits: map<string, real>, blocked: map<string, BlockReason>, selected: seq<Task>,
    projectRuns: Counts, adapterRuns: Counts, accountRuns: Counts, scopes: ScopeTable,
    cursor: nat, idle: nat, quanta: Counts)

  function DeficitOf(deficits: map<string, real>, id: string): real {
    if id in deficits then deficits[id] else 0.0
  }

  /** The next index, around the end: (cursor + 1) % n. */
  function Advance(cursor: nat, n: nat): (next: nat)
    requires cursor < n
  {
    if cursor + 1 == n then 0 else cursor + 1
  }

  lemma AdvanceIsModulo(cursor: nat, n: nat)
    requires cursor < n
    ensures Advance(cursor, n) == (cursor + 1) % n
  {
  }

  function MaxIdle(env: Setting): nat {
    if |env.order| * 64 > 1 then |env.order| * 64 else 1
  }

  predicate Waiting(queues: Queues) {
    exists id :: id in queues && queues[id] != []
  }

  predicate Continues(env: Setting, st: State) {
    |st.selected| < env.slots && Waiting(st.queues) && st.idle < MaxIdle(env)
  }

  function Block(blocked: map<string, BlockReason>, tasks: seq<Task>, reason: BlockReason): map<string, BlockReason> {
    if tasks == [] then blocked
    else Block(blocked, tasks[..|tasks|-1], reason)[tasks[|tasks|-1].id := reason]
  }

  /** The deficit after the quantum that a visit adds when the head cannot be afforded. */
  function Funded(st: State, p: Project, cost: real): (r: State)
    ensures r == st.(deficits := r.deficits, quanta := r.quanta)
  {
    if DeficitOf(st.deficits, p.id) < cost
    then st.(deficits := st.deficits[p.id := DeficitOf(st.deficits, p.id) + Quantum(p)],
             quanta := Increment(st.quanta, p.id))
    else st
  }

  /** Why a task at the head of a funded queue is dropped; None when it is selected. */
  function Refusal(env: Setting, st: State, t: Task): (r: Option<BlockReason>)
    ensures r == None ==> t.id in env.routeByTask
  {
    if Clashes(st.scopes, t, env.limits.unknownWriteScopeConflicts) then Some(BlockedConflict)
    else if t.id !in env.routeByTask then Some(BlockedRoute)
    else
      var route := env.routeByTask[t.id];
      if AtLimit(Count(st.adapterRuns, route.adapterId), env.limits.perAdapterMaxRuns, route.adapterId)
         || AtLimit(Count(st.accountRuns, route.accountId), env.limits.perAccountMaxRuns, route.accountId)
      then Some(BlockedConcurrency) else None
  }

  /** The visit keeps the cursor when the project can afford its next task at once. */
  predicate Stays(env: Setting, st: State, rest: seq<Task>, deficit: real, cost: real) {
    if rest != [] then deficit >= Cost(rest[0].effort) else |st.selected| >= env.slots && deficit >= cost
  }

  /** Every visit either selects one task or counts as idle. */
  predicate Advances(st: State, next: State) {
    |next.selected| == |st.selected| + 1 || (next.selected == st.selected && next.idle == st.idle + 1)
  }

  function Select(env: Setting, st: State, p: Project, t: Task, rest: seq<Task>): (next: State)
    requires st.cursor < |env.order| && t.id in env.routeByTask
    ensures next.cursor < |env.order| && Advances(st, next)
  {
    var route := env.routeByTask[t.id];
    var cost := Cost(t.effort);
    var deficit := DeficitOf(st.deficits, p.id) - cost;
    var picked := st.(
      queues := st.queues[p.id := rest],
      selected := st.selected + [t],
      deficits := st.deficits[p.id := deficit],
      projectRuns := Increment(st.projectRuns, p.id),
      adapterRuns := Increment(st.adapterRuns, route.adapterId),
      accountRuns := Increment(st.accountRuns, route.accountId),
      scopes := AddScopes(st.scopes, p.id, t.writeScopes),
      idle := 0);
    picked.(cursor := if Stays(env, picked, rest, deficit, cost) then st.cursor else Advance(st.cursor, |env.order|))
  }

  function Pass(env: Setting, st: State): (next: State)
    requires st.cursor < |env.order|
    ensures next.cursor < |env.order| && Advances(st, next)
  {
    st.(cursor := Advance(st.cursor, |env.order|), idle := st.idle + 1)
  }

  function Drop(env: Setting, st: State, p: Project, t: Task, rest: seq<Task>, reason: BlockReason): (next: State)
    requires st.cursor < |env.order|
    ensures next.cursor < |env.order| && Advances(st, next)
  {
    Pass(env, st.(queues := st.queues[p.id := rest], blocked := st.blocked[t.id := reason]))
  }

  /** A visit to a non-empty queue of a project below its own limit. */
  function Serve(env: Setting, st: State, p: Project, queue: seq<Task>): (next: State)
    requires st.cursor < |env.order| && queue != []
    ensures next.cursor < |env.order| && Advances(st, next)
  {
    var t := queue[0];
    var cost := Cost(t.effort);
    var funded := Funded(st, p, cost);
    if DeficitOf(funded.deficits, p.id) < cost then Pass(env, funded)
    else
      match Refusal(env, st, t)
      case Some(reason) => Drop(env, funded, p, t, queue[1..], reason)
      case None => Select(env, funded, p, t, queue[1..])
  }

  function Visit(env: Setting, st: State): (next: State)
    requires st.cursor < |env.order|
    ensures next.cursor < |env.order| && Advances(st, next)
  {
    var p := env.order[st.cursor];
    var queue := QueueOf(st.queues, p.id);
    if queue == [] then Pass(env, st)
    else if Count(st.projectRuns, p.id) >= env.limits.perProjectMaxRuns then
      Pass(env, st.(queues := st.queues[p.id := []], blocked := Block(st.blocked, queue, BlockedConcurrency)))
    else Serve(env, st, p, queue)
  }

  /** The loop, to its end. */
  function Run(env: Setting, st: State): State
    requires env.order != [] ==> st.cursor < |env.order|
    decreases env.slots - |st.selected|, MaxIdle(env) - st.idle
  {
    if Continues(env, st) && env.order != [] then Run(env, Visit(env, st)) else st
  }

  // -------------------------------------------------- the whole decision

  function FindProject(order: seq<Project>, id: string): (i: nat)
    ensures order != [] ==> i < |order|
    ensures (exists j :: 0 <= j < |order| && order[j].id == id) ==> i < |order| && order[i].id == id
  {
    var found := FindFrom(order, id, 0);
    if found < |order| then found else 0
  }

  function FindFrom(order: seq<Project>, id: string, from: nat): (i: nat)
    requires from <= |order|
    ensures from <= i <= |order|
    ensures i < |order| ==> order[i].id == id
    ensures i == |order| ==> forall j :: from <= j < |order| ==> order[j].id != id
    decreases |order| - from
  {
    if from == |order| || order[from].id == id then from else FindFrom(order, id, from + 1)
  }

  function StartingCursor(order: seq<Project>, cursorProjectId: Option<string>): (i: nat)
    ensures order != [] ==> i < |order|
  {
    match cursorProjectId
    case None => 0
    case Some(id) => if id == "" then 0 else FindProject(order, id)
  }

  function SettingOf(leq: Collation, snap: Snapshot): Setting {
    var free := snap.limits.globalMaxRuns - |snap.activeRuns|;
    Setting(ProjectOrder(leq, snap.projects), snap.routeByTask, snap.limits, if free > 0 then free else 0)
  }

  function Initial(leq: Collation, snap: Snapshot): State {
    var load := LoadOf(snap.activeRuns);
    var admitted := Admit(snap, load, StableOrder(leq, snap.readyTasks));
    State(admitted.queues, StartingDeficits(snap), admitted.blocked, [],
          load.projectRuns, load.adapterRuns, load.accountRuns, load.scopes,
          StartingCursor(ProjectOrder(leq, snap.projects), snap.cursorProjectId), 0, map[])
  }

  function Final(leq: Collation, snap: Snapshot): State {
    Run(SettingOf(leq, snap), Initial(leq, snap))
  }

  function QueuedIds(queues: Queues): set<string> {
    set id, i | id in queues && 0 <= i < |queues[id]| :: queues[id][i].id
  }

  /** Tasks left in the queues are blocked for concurrency. */
  function BlockRest(queues: Queues, blocked: map<string, BlockReason>): map<string, BlockReason> {
    map id | id in blocked.Keys + QueuedIds(queues) :: if id in blocked then blocked[id] else BlockedConcurrency
  }

  function TaskIds(tasks: seq<Task>): seq<string> {
    seq(|tasks|, i requires 0 <= i < |tasks| => tasks[i].id)
  }

  function CursorId(order: seq<Project>, cursor: nat): Option<string> {
    if cursor < |order| && order[cursor].id != "" then Some(order[cursor].id) else None
  }

  function Decide(leq: Collation, snap: Snapshot): Decision {
    var end := Final(leq, snap);
    Decision(TaskIds(end.selected), BlockRest(end.queues, end.blocked), end.deficits,
             CursorId(ProjectOrder(leq, snap.projects), end.cursor))
  }
}
