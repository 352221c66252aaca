/** Weighted fairness between two busy projects within one call, for any number of slots, and
    the invariant from which fairness over many calls follows. */
module SchedulerFairness {
  import opened Scheduler
  import opened SchedulerAccounts
  import opened SchedulerPartition
  import opened SchedulerRuns
  import opened SchedulerSafety

  // -------------------------------------------------------- phases of a turn

  /** Cost of the next task of project id, or otherwise when none is queued. */
  function Need(st: State, id: string, otherwise: real): real {
    if QueueOf(st.queues, id) != [] then Cost(QueueOf(st.queues, id)[0].effort) else otherwise
  }

  /** What earlier calls did for a project: the quanta it was given, how often between two calls
      it became able (woke) or unable (slept) to afford its next task, and whether (1 or 0) it
      could afford its first one before all these calls. */
  datatype Past = Past(quanta: nat, wakes: nat, sleeps: nat, credit: nat)

  /** Quanta are turns, exactly: each turn brings one quantum. A project that can afford its next
      task has had the quantum of a turn that is not over. Each wake and an initial credit
      stand for a quantum that was not needed, each sleep for one more that was. A project
      that can afford its next task without being at the cursor owes that to one of the first two. */
  ghost predicate Phase(atCursor: bool, turns: nat, quanta: nat, deficit: real, need: real, past: Past) {
    && quanta + past.wakes + past.credit == turns + past.sleeps + (if deficit < need then 0 else 1)
    && past.credit <= 1
    && (deficit >= need && !atCursor ==> past.wakes + past.credit > 0)
  }

  lemma PhaseServed(turns: nat, quantum: real, b: Books, cost: real, picks: bool, stays: bool, need': real, past: Past)
    requires Phase(true, turns, b.quanta, b.deficit, cost, past)
    requires picks <==> b.deficit >= cost || b.deficit + quantum >= cost
    requires stays <==> picks && Served(quantum, b, cost, picks).deficit >= need'
    requires !picks ==> need' == cost
    ensures var after := Served(quantum, b, cost, picks);
            Phase(stays, if stays then turns else turns + 1, after.quanta, after.deficit, need', past)
  {
  }

  ghost predicate PhaseAt(env: Setting, st: State, past: Past, otherwise: real, s: nat, q: nat, r: nat, i: nat)
    requires i < |env.order|
  {
    var id := env.order[i].id;
    Phase(st.cursor == i, Turns(|env.order|, s, q, r, i), past.quanta + Count(st.quanta, id),
          DeficitOf(st.deficits, id), Need(st, id, otherwise), past)
  }

  /** The visit at the cursor reaches the head of the queue and drops nothing, and when it takes
      the last task the slots are full and the stand-in cost is that of the task. */
  ghost predicate Undisturbed(env: Setting, st: State, otherwise: real)
    requires st.cursor < |env.order|
  {
    var queue := HeadQueue(env, st);
    && queue != [] && (KindOf(env, st) == Unaffordable || KindOf(env, st) == Selects)
    && (KindOf(env, st) == Selects && |queue| == 1 ==>
          |st.selected| + 1 >= env.slots && otherwise == Cost(queue[0].effort))
  }

  lemma RotationCursor(n: nat, cursor: nat, s: nat, q: nat, r: nat)
    requires Rotation(n, cursor, s, q, r)
    ensures Turns(n, s, q, r, cursor) == q
    ensures forall i :: 0 <= i < n ==> q <= Turns(n, s, q, r, i) <= q + 1
  {
  }

  /** The visited project: its turn goes on exactly when the cursor stays. */
  lemma PhaseOfVisited(env: Setting, st: State, past: Past, otherwise: real, turns: nat, turns': nat)
    requires st.cursor < |env.order| && |env.order| >= 2 && Homogeneous(st.queues)
    requires Undisturbed(env, st, otherwise)
    requires turns' == if Visit(env, st).cursor == st.cursor then turns else turns + 1
    requires var id := Visited(env, st).id;
             Phase(true, turns, past.quanta + Count(st.quanta, id), DeficitOf(st.deficits, id),
                   Need(st, id, otherwise), past)
    ensures var id, next := Visited(env, st).id, Visit(env, st);
            Phase(next.cursor == st.cursor, turns', past.quanta + Count(next.quanta, id), DeficitOf(next.deficits, id),
                  Need(next, id, otherwise), past)
  {
    hide Visit, KindOf, Quantum, Phase, Homogeneous, Refusal, Increment, AddScopes;
    var p, queue, next := Visited(env, st), HeadQueue(env, st), Visit(env, st);
    var cost := Cost(queue[0].effort);
    var b := Books(DeficitOf(st.deficits, p.id), past.quanta + Count(st.quanta, p.id), 0.0);
    var picks := KindOf(env, st) == Selects;
    KeptAfter(env, st, p.id);
    MoneyAfter(env, st);
    if picks {
      BooksWhenSelecting(env, st, p.id);
      CursorAfter(env, st);
      WhenSelecting(env, st);
    } else {
      BooksWhenPassing(env, st, p.id);
      WhenPassing(env, st);
    }
    PhaseServed(turns, Quantum(p), b, cost, picks, next.cursor == st.cursor, Need(next, p.id, otherwise), past);
  }

  /** Every other project keeps its phase. */
  lemma PhaseOfOthers(env: Setting, st: State, past: Past, otherwise: real, turns: nat, i: nat)
    requires st.cursor < |env.order| && i < |env.order| && i != st.cursor
    requires Homogeneous(st.queues) && DistinctOrder(env.order)
    requires var id := env.order[i].id;
             Phase(false, turns, past.quanta + Count(st.quanta, id), DeficitOf(st.deficits, id),
                   Need(st, id, otherwise), past)
    ensures var id, next := env.order[i].id, Visit(env, st);
            Phase(next.cursor == i, turns, past.quanta + Count(next.quanta, id), DeficitOf(next.deficits, id),
                  Need(next, id, otherwise), past)
  {
    assert env.order[i].id != Visited(env, st).id;
    KeptAfter(env, st, env.order[i].id);
    if KindOf(env, st) == Selects {
      BooksWhenSelecting(env, st, env.order[i].id);
    } else {
      BooksWhenPassing(env, st, env.order[i].id);
    }
  }

  /** The rotation after a visit: unchanged when the cursor stays. */
  lemma NextRotation(env: Setting, st: State, s: nat, q: nat, r: nat) returns (q': nat, r': nat)
    requires st.cursor < |env.order| && |env.order| >= 2 && Rotation(|env.order|, st.cursor, s, q, r)
    ensures Rotation(|env.order|, Visit(env, st).cursor, s, q', r')
    ensures forall i :: 0 <= i < |env.order| ==>
              Turns(|env.order|, s, q', r', i)
              == Turns(|env.order|, s, q, r, i) + if i == st.cursor && Visit(env, st).cursor != st.cursor then 1 else 0
  {
    var n := |env.order|;
    if KindOf(env, st) == Selects {
      CursorAfter(env, st);
    } else {
      WhenPassing(env, st);
    }
    if Visit(env, st).cursor == st.cursor {
      q', r' := q, r;
    } else {
      RotationStep(n, st.cursor, s, q, r);
      q', r' := if r + 1 == n then q + 1 else q, if r + 1 == n then 0 else r + 1;
    }
  }

  lemma VisitKeepsPhase(env: Setting, st: State, past: Past, otherwise: real,
                        s: nat, q: nat, r: nat, q': nat, r': nat, i: nat)
    requires st.cursor < |env.order| && |env.order| >= 2 && i < |env.order|
    requires Homogeneous(st.queues) && DistinctOrder(env.order)
    requires Turns(|env.order|, s, q', r', i)
             == Turns(|env.order|, s, q, r, i) + if i == st.cursor && Visit(env, st).cursor != st.cursor then 1 else 0
    requires i == st.cursor ==> Undisturbed(env, st, otherwise)
    requires PhaseAt(env, st, past, otherwise, s, q, r, i)
    ensures PhaseAt(env, Visit(env, st), past, otherwise, s, q', r', i)
  {
    hide Undisturbed, Phase, Visit;
    var turns := Turns(|env.order|, s, q, r, i);
    if i == st.cursor {
      PhaseOfVisited(env, st, past, otherwise, turns, Turns(|env.order|, s, q', r', i));
    } else {
      PhaseOfOthers(env, st, past, otherwise, turns, i);
    }
  }

  /** Of two projects in the same rotation, the lead of one differs by at most three from its
      sleeps less its wakes, less the same of the other; and it is at most two more than its
      own sleeps and the other's wakes. */
  lemma QuantaGap(n: nat, cursor: nat, s: nat, q: nat, r: nat, i: nat, j: nat,
                  ki: nat, di: real, ni: real, pi: Past, kj: nat, dj: real, nj: real, pj: Past)
    requires Rotation(n, cursor, s, q, r) && i < n && j < n && i != j
    requires Phase(cursor == i, Turns(n, s, q, r, i), ki, di, ni, pi)
    requires Phase(cursor == j, Turns(n, s, q, r, j), kj, dj, nj, pj)
    ensures -3 <= (ki - kj) - (pi.sleeps - pi.wakes) + (pj.sleeps - pj.wakes) <= 3
    ensures ki - kj <= 2 + pi.sleeps + pj.wakes
  {
    RotationCursor(n, cursor, s, q, r);
  }

  // ----------------------------------------------------------- one call

  /** From st to the end of the run, project id loses no task and always has a next one, unless
      its last task is the selection that fills the slots. */
  ghost predicate Busy(env: Setting, st: State, id: string)
    requires InRange(env, st)
  {
    var end := Run(env, st);
    Kept(end, id) == Kept(st, id) && (QueueOf(end.queues, id) != [] || EndsWith(env, st, end, id))
  }

  /** The last selection was of project id and filled the slots. */
  ghost predicate EndsWith(env: Setting, st: State, end: State, id: string) {
    && |end.selected| >= env.slots && |end.selected| >= |st.selected| && end.selected != []
    && end.selected[|end.selected|-1].projectId == id
  }

  /** Cost of the task project id is left with at the end of a call: the next one, or else the
      one selected last. */
  function Left(end: State, id: string): real {
    if QueueOf(end.queues, id) != [] then Cost(QueueOf(end.queues, id)[0].effort)
    else if end.selected != [] then Cost(end.selected[|end.selected|-1].effort)
    else 1.0
  }

  lemma {:induction false} KeptShrinks(env: Setting, st: State, id: string)
    requires InRange(env, st) && Homogeneous(st.queues)
    ensures Kept(Run(env, st), id) <= Kept(st, id)
    decreases env.slots - |st.selected|, MaxIdle(env) - st.idle
  {
    if !Continues(env, st) || env.order == [] {
      assert Run(env, st) == st;
    } else {
      KeptAfter(env, st, id);
      VisitHomogeneous(env, st);
      KeptShrinks(env, Visit(env, st), id);
    }
  }

  lemma {:induction false} SelectedGrows(env: Setting, st: State)
    requires InRange(env, st)
    ensures st.selected <= Run(env, st).selected
    decreases env.slots - |st.selected|, MaxIdle(env) - st.idle
  {
    if !Continues(env, st) || env.order == [] {
      assert Run(env, st) == st;
    } else {
      if KindOf(env, st) == Selects {
        WhenSelecting(env, st);
      } else {
        WhenPassing(env, st);
      }
      SelectedGrows(env, Visit(env, st));
    }
  }

  lemma {:induction false} SelectedOfPrefix(a: seq<Task>, b: seq<Task>, id: string)
    requires a <= b && |a| < |b| && b[|b|-1].projectId == id
    ensures |SelectedOf(a, id)| < |SelectedOf(b, id)|
  {
    var init := b[..|b|-1];
    assert a <= init;
    SelectedOfMonotone(a, init, id);
  }

  lemma {:induction false} SelectedOfMonotone(a: seq<Task>, b: seq<Task>, id: string)
    requires a <= b
    ensures |SelectedOf(a, id)| <= |SelectedOf(b, id)|
  {
    if a == b {
    } else {
      assert a <= b[..|b|-1];
      SelectedOfMonotone(a, b[..|b|-1], id);
    }
  }

  /** A busy project's last task is taken only by the selection that ends the call. */
  lemma LastTaskEndsCall(env: Setting, st: State, id: string)
    requires InRange(env, st) && Busy(env, st, id) && QueueOf(st.queues, id) == []
    ensures Run(env, st).selected == st.selected
  {
    hide Run, SelectedOf;
    SelectedGrows(env, st);
    QueueShrinks(env, st, id);
    var end := Run(env, st);
    if |st.selected| < |end.selected| {
      SelectedOfPrefix(st.selected, end.selected, id);
    }
  }

  lemma BusyStays(env: Setting, st: State, id: string)
    requires InRange(env, st) && Homogeneous(st.queues) && Continues(env, st) && env.order != []
    requires Busy(env, st, id)
    ensures Busy(env, Visit(env, st), id) && Kept(Visit(env, st), id) == Kept(st, id)
    ensures Run(env, Visit(env, st)) == Run(env, st)
  {
    var next := Visit(env, st);
    VisitHomogeneous(env, st);
    KeptAfter(env, st, id);
    KeptShrinks(env, next, id);
    SelectedGrows(env, next);
  }

  lemma BusyIsUndisturbed(env: Setting, st: State, i: nat)
    requires InRange(env, st) && Homogeneous(st.queues) && Continues(env, st) && i < |env.order|
    requires Busy(env, st, env.order[i].id) && i == st.cursor
    ensures Undisturbed(env, st, Left(Run(env, st), env.order[i].id))
  {
    hide Run;
    var id, next, end := env.order[i].id, Visit(env, st), Run(env, st);
    BusyStays(env, st, id);
    KeptAfter(env, st, id);
    assert QueueOf(st.queues, id) != [] by { BusyHasTask(env, st, id); }
    if KindOf(env, st) == Selects && |HeadQueue(env, st)| == 1 {
      WhenSelecting(env, st);
      LastTaskEndsCall(env, next, id);
      QueueShrinks(env, next, id);
    }
  }

  lemma BusyHasTask(env: Setting, st: State, id: string)
    requires InRange(env, st) && Continues(env, st) && Busy(env, st, id)
    ensures QueueOf(st.queues, id) != []
  {
    QueueShrinks(env, st, id);
    if QueueOf(st.queues, id) == [] {
      LastTaskEndsCall(env, st, id);
    }
  }

  ghost predicate BothInPhase(env: Setting, st: State, s: nat, q: nat, r: nat,
                              i: nat, pi: Past, ci: real, j: nat, pj: Past, cj: real)
    requires i < |env.order| && j < |env.order|
  {
    Rotation(|env.order|, st.cursor, s, q, r) && PhaseAt(env, st, pi, ci, s, q, r, i)
    && PhaseAt(env, st, pj, cj, s, q, r, j)
  }

  lemma VisitKeepsBoth(env: Setting, st: State, s: nat, q: nat, r: nat,
                       i: nat, pi: Past, ci: real, j: nat, pj: Past, cj: real)
    returns (q': nat, r': nat)
    requires i < |env.order| && j < |env.order| && |env.order| >= 2 && DistinctOrder(env.order)
    requires st.cursor < |env.order| && Homogeneous(st.queues) && BothInPhase(env, st, s, q, r, i, pi, ci, j, pj, cj)
    requires i == st.cursor ==> Undisturbed(env, st, ci)
    requires j == st.cursor ==> Undisturbed(env, st, cj)
    ensures BothInPhase(env, Visit(env, st), s, q', r', i, pi, ci, j, pj, cj)
  {
    hide PhaseAt, Undisturbed, Visit, Turns;
    q', r' := NextRotation(env, st, s, q, r);
    VisitKeepsPhase(env, st, pi, ci, s, q, r, q', r', i);
    VisitKeepsPhase(env, st, pj, cj, s, q, r, q', r', j);
  }

  /** A call carries the phases of two busy projects from its start to its end. */
  lemma {:induction false} BusyStayInPhase(env: Setting, st: State, s: nat, q: nat, r: nat,
                                           i: nat, pi: Past, ci: real, j: nat, pj: Past, cj: real)
    returns (q': nat, r': nat)
    requires i < |env.order| && j < |env.order| && |env.order| >= 2 && DistinctOrder(env.order)
    requires InRange(env, st) && Homogeneous(st.queues)
    requires Busy(env, st, env.order[i].id) && ci == Left(Run(env, st), env.order[i].id)
    requires Busy(env, st, env.order[j].id) && cj == Left(Run(env, st), env.order[j].id)
    requires BothInPhase(env, st, s, q, r, i, pi, ci, j, pj, cj)
    ensures BothInPhase(env, Run(env, st), s, q', r', i, pi, ci, j, pj, cj)
    decreases env.slots - |st.selected|, MaxIdle(env) - st.idle
  {
    hide Busy, BothInPhase, Undisturbed, Left;
    if !Continues(env, st) {
      q', r' := q, r;
    } else {
      if i == st.cursor {
        BusyIsUndisturbed(env, st, i);
      }
      if j == st.cursor {
        BusyIsUndisturbed(env, st, j);
      }
      BusyStays(env, st, env.order[i].id);
      BusyStays(env, st, env.order[j].id);
      VisitHomogeneous(env, st);
      var q1, r1 := VisitKeepsBoth(env, st, s, q, r, i, pi, ci, j, pj, cj);
      q', r' := BusyStayInPhase(env, Visit(env, st), s, q1, r1, i, pi, ci, j, pj, cj);
    }
  }

  /** The past of a project before its first call. */
  function FirstPast(st: State, id: string, otherwise: real): Past {
    Past(0, 0, 0, if DeficitOf(st.deficits, id) < Need(st, id, otherwise) then 0 else 1)
  }

  /** In one call, one busy project is given at most two quanta more than another. */
  lemma QuantaAreFair(leq: Collation, snap: Snapshot, i: nat, j: nat)
    requires DistinctProjects(snap.projects)
    requires var order := SettingOf(leq, snap).order; i < |order| && j < |order| && i != j
    requires var env := SettingOf(leq, snap);
             Busy(env, Initial(leq, snap), env.order[i].id) && Busy(env, Initial(leq, snap), env.order[j].id)
    ensures var env, end := SettingOf(leq, snap), Final(leq, snap);
            -2 <= Count(end.quanta, env.order[i].id) - Count(end.quanta, env.order[j].id) <= 2
  {
    hide Busy, Run;
    var env, start, end := SettingOf(leq, snap), Initial(leq, snap), Final(leq, snap);
    OrderFacts(leq, snap);
    AdmitHomogeneous(snap, LoadOf(snap.activeRuns), StableOrder(leq, snap.readyTasks));
    hide Initial, SettingOf;
    var a, b := env.order[i].id, env.order[j].id;
    var ca, cb := Left(end, a), Left(end, b);
    var pa, pb := FirstPast(start, a, ca), FirstPast(start, b, cb);
    FirstPhase(leq, snap, i, ca, j, cb);
    var q, r := BusyStayInPhase(env, start, start.cursor, 0, 0, i, pa, ca, j, pb, cb);
    var ka, kb := Count(end.quanta, a), Count(end.quanta, b);
    var da, db := DeficitOf(end.deficits, a), DeficitOf(end.deficits, b);
    QuantaGap(|env.order|, end.cursor, start.cursor, q, r, i, j, ka, da, Need(end, a, ca), pa, kb, db,
              Need(end, b, cb), pb);
    QuantaGap(|env.order|, end.cursor, start.cursor, q, r, j, i, kb, db, Need(end, b, cb), pb, ka, da,
              Need(end, a, ca), pa);
  }

  /** Before the first visit no project has had a turn. */
  lemma FirstPhase(leq: Collation, snap: Snapshot, i: nat, ci: real, j: nat, cj: real)
    requires var n := |SettingOf(leq, snap).order|; i < n && j < n
    ensures var order, start := SettingOf(leq, snap).order, Initial(leq, snap);
            BothInPhase(SettingOf(leq, snap), start, start.cursor, 0, 0,
                        i, FirstPast(start, order[i].id, ci), ci, j, FirstPast(start, order[j].id, cj), cj)
  {
  }

  /** Cost received per unit of quantum follows the number of quanta up to 1 + 6 / quantum. */
  lemma CostFollowsQuanta(quantum: real, start: real, b: Books)
    requires quantum > 0.0 && BalancedBooks(quantum, start, b) && 0.0 <= start < 6.0 + quantum
    ensures -(1.0 + 6.0 / quantum) < b.spent / quantum - (b.quanta as real) < 1.0 + 6.0 / quantum
  {
    var gap := start - b.deficit;
    assert b.spent == quantum * (b.quanta as real) + gap;
    DivideSum(quantum, b.quanta as real, gap);
    assert -(6.0 + quantum) < gap < 6.0 + quantum;
    DivideBound(quantum, gap);
  }

  lemma DivideSum(quantum: real, k: real, gap: real)
    requires quantum > 0.0
    ensures (quantum * k + gap) / quantum == k + gap / quantum
  {
  }

  lemma DivideBound(quantum: real, gap: real)
    requires quantum > 0.0 && -(6.0 + quantum) < gap < 6.0 + quantum
    ensures -(1.0 + 6.0 / quantum) < gap / quantum < 1.0 + 6.0 / quantum
  {
    DivideSum(quantum, 1.0, 6.0);
    DivideOrder(quantum, gap, 6.0 + quantum);
    DivideOrder(quantum, -(6.0 + quantum), gap);
    assert -(6.0 + quantum) / quantum == -((6.0 + quantum) / quantum);
  }

  lemma DivideOrder(quantum: real, a: real, b: real)
    requires quantum > 0.0 && a < b
    ensures a / quantum < b / quantum
  {
  }

  /** The cost served to one project per quantum exceeds another's by less than the lead in
      quanta, two, and what the deficits hold back. */
  lemma CostsAreClose(qi: real, qj: real, di: real, dj: real, bi: Books, bj: Books, lead: int)
    requires qi > 0.0 && qj > 0.0 && bi.quanta - bj.quanta <= lead
    requires BalancedBooks(qi, di, bi) && 0.0 <= di < 6.0 + qi
    requires BalancedBooks(qj, dj, bj) && 0.0 <= dj < 6.0 + qj
    ensures bi.spent / qi - bj.spent / qj < lead as real + 2.0 + 6.0 / qi + 6.0 / qj
  {
    CostFollowsQuanta(qi, di, bi);
    CostFollowsQuanta(qj, dj, bj);
  }

  /** So the cost each of the two is served, divided by its quantum (twice its weight), differs
      by less than 4 + 6/quantum + 6/quantum'. */
  lemma ServiceIsFair(leq: Collation, snap: Snapshot, i: nat, j: nat)
    requires DistinctProjects(snap.projects)
    requires var order := SettingOf(leq, snap).order; i < |order| && j < |order| && i != j
    requires var env := SettingOf(leq, snap);
             Busy(env, Initial(leq, snap), env.order[i].id) && Busy(env, Initial(leq, snap), env.order[j].id)
    requires var order, d := SettingOf(leq, snap).order, snap.deficits;
             && (order[i].id in d ==> 0.0 <= d[order[i].id] < 6.0 + Quantum(order[i]))
             && (order[j].id in d ==> 0.0 <= d[order[j].id] < 6.0 + Quantum(order[j]))
    ensures var end, pi, pj := Final(leq, snap), SettingOf(leq, snap).order[i], SettingOf(leq, snap).order[j];
            var bound := 4.0 + 6.0 / Quantum(pi) + 6.0 / Quantum(pj);
            -bound < SpentOn(end.selected, pi.id) / Quantum(pi) - SpentOn(end.selected, pj.id) / Quantum(pj) < bound
  {
    hide Busy, Run, Initial;
    var env, end := SettingOf(leq, snap), Final(leq, snap);
    var pi, pj := env.order[i], env.order[j];
    OrderFacts(leq, snap);
    assert pi in env.order && pj in env.order;
    QuantaAreFair(leq, snap, i, j);
    DeficitsAreAccounted(leq, snap, pi);
    DeficitsAreAccounted(leq, snap, pj);
    StartingDeficitOf(snap, pi);
    StartingDeficitOf(snap, pj);
    var di, dj := StartingDeficits(snap)[pi.id], StartingDeficits(snap)[pj.id];
    CostsAreClose(Quantum(pi), Quantum(pj), di, dj, BooksOf(end, pi.id), BooksOf(end, pj.id), 2);
    CostsAreClose(Quantum(pj), Quantum(pi), dj, di, BooksOf(end, pj.id), BooksOf(end, pi.id), 2);
  }
}
