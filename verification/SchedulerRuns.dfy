/** Induction over the visits of a scheduling run, and the cases of one visit. */
module SchedulerRuns {
  import opened Scheduler
  import opened Wrappers

  ghost predicate InRange(env: Setting, st: State) {
    env.order != [] ==> st.cursor < |env.order|
  }

  /** A property of the loop's state that every visit keeps holds when the loop ends. */
  lemma {:induction false} RunInduction(env: Setting, st: State, holds: State -> bool)
    requires InRange(env, st) && holds(st)
    requires forall s :: holds(s) && Continues(env, s) && s.cursor < |env.order| ==> holds(Visit(env, s))
    ensures holds(Run(env, st))
    decreases env.slots - |st.selected|, MaxIdle(env) - st.idle
  {
    if !Continues(env, st) || env.order == [] {
    } else {
      RunInduction(env, Visit(env, st), holds);
    }
  }

  lemma {:induction false} RunStops(env: Setting, st: State)
    requires InRange(env, st)
    ensures !Continues(env, Run(env, st)) || env.order == []
    ensures InRange(env, Run(env, st))
    decreases env.slots - |st.selected|, MaxIdle(env) - st.idle
  {
    if !Continues(env, st) || env.order == [] {
    } else {
      RunStops(env, Visit(env, st));
    }
  }

  // ------------------------------------------------------ cases of a visit

  datatype Kind = Vacant | Full | Unaffordable | Refused(reason: BlockReason) | Selects

  function Visited(env: Setting, st: State): Project
    requires st.cursor < |env.order|
  {
    env.order[st.cursor]
  }

  function HeadQueue(env: Setting, st: State): seq<Task>
    requires st.cursor < |env.order|
  {
    QueueOf(st.queues, Visited(env, st).id)
  }

  function Paid(env: Setting, st: State): State
    requires st.cursor < |env.order| && HeadQueue(env, st) != []
  {
    Funded(st, Visited(env, st), Cost(HeadQueue(env, st)[0].effort))
  }

  function KindOf(env: Setting, st: State): Kind
    requires st.cursor < |env.order|
  {
    var p := Visited(env, st);
    var queue := HeadQueue(env, st);
    if queue == [] then Vacant
    else if Count(st.projectRuns, p.id) >= env.limits.perProjectMaxRuns then Full
    else if DeficitOf(Paid(env, st).deficits, p.id) < Cost(queue[0].effort) then Unaffordable
    else
      match Refusal(env, st, queue[0])
      case Some(reason) => Refused(reason)
      case None => Selects
  }

  lemma VisitVacant(env: Setting, st: State)
    requires st.cursor < |env.order| && KindOf(env, st) == Vacant
    ensures HeadQueue(env, st) == [] && Visit(env, st) == Pass(env, st)
  {
  }

  lemma VisitFull(env: Setting, st: State)
    requires st.cursor < |env.order| && KindOf(env, st) == Full
    ensures var p, queue := Visited(env, st), HeadQueue(env, st);
            queue != [] && p.id in st.queues
            && Visit(env, st) == Pass(env,
                                      st.(queues := st.queues[p.id := []],
                                          blocked := Block(st.blocked, queue, BlockedConcurrency)))
  {
  }

  lemma VisitUnaffordable(env: Setting, st: State)
    requires st.cursor < |env.order| && KindOf(env, st) == Unaffordable
    ensures HeadQueue(env, st) != [] && Visit(env, st) == Pass(env, Paid(env, st))
  {
  }

  lemma VisitRefused(env: Setting, st: State, reason: BlockReason)
    requires st.cursor < |env.order| && KindOf(env, st) == Refused(reason)
    ensures var p, queue := Visited(env, st), HeadQueue(env, st);
            queue != [] && p.id in st.queues
            && Visit(env, st) == Drop(env, Paid(env, st), p, queue[0], queue[1..], reason)
  {
  }

  lemma VisitSelects(env: Setting, st: State)
    requires st.cursor < |env.order| && KindOf(env, st) == Selects
    ensures var p, queue := Visited(env, st), HeadQueue(env, st);
            queue != [] && p.id in st.queues && queue[0].id in env.routeByTask
            && Visit(env, st) == Select(env, Paid(env, st), p, queue[0], queue[1..])
  {
  }

  /** A visit that selects nothing leaves the load alone and moves on. */
  lemma WhenPassing(env: Setting, st: State)
    requires st.cursor < |env.order| && KindOf(env, st) != Selects
    ensures var next := Visit(env, st);
            && next.selected == st.selected && next.scopes == st.scopes
            && next.projectRuns == st.projectRuns && next.adapterRuns == st.adapterRuns
            && next.accountRuns == st.accountRuns
            && next.cursor == Advance(st.cursor, |env.order|) && next.idle == st.idle + 1
  {
    match KindOf(env, st)
    case Vacant => VisitVacant(env, st);
    case Full => VisitFull(env, st);
    case Unaffordable => VisitUnaffordable(env, st);
    case Refused(reason) => VisitRefused(env, st, reason);
  }

  /** A visit that selects does so for an affordable, admissible head below the project limit. */
  lemma WhenSelecting(env: Setting, st: State)
    requires st.cursor < |env.order| && KindOf(env, st) == Selects
    ensures HeadQueue(env, st) != [] && HeadQueue(env, st)[0].id in env.routeByTask
    ensures var p, t, next := Visited(env, st), HeadQueue(env, st)[0], Visit(env, st);
            var route := env.routeByTask[t.id];
            && Refusal(env, st, t) == None
            && Count(st.projectRuns, p.id) < env.limits.perProjectMaxRuns
            && next.selected == st.selected + [t]
            && next.projectRuns == Increment(st.projectRuns, p.id)
            && next.adapterRuns == Increment(st.adapterRuns, route.adapterId)
            && next.accountRuns == Increment(st.accountRuns, route.accountId)
            && next.scopes == AddScopes(st.scopes, p.id, t.writeScopes)
            && next.idle == 0 && next.blocked == st.blocked
  {
    VisitSelects(env, st);
  }

  /** The visited queue keeps a suffix; the others are untouched. */
  function QueueAfter(env: Setting, st: State): seq<Task>
    requires st.cursor < |env.order|
  {
    var queue := HeadQueue(env, st);
    match KindOf(env, st)
    case Vacant => queue
    case Unaffordable => queue
    case Full => []
    case _ => if queue == [] then [] else queue[1..]
  }

  lemma QueuesAfter(env: Setting, st: State, kind: Kind)
    requires st.cursor < |env.order| && KindOf(env, st) == kind
    ensures kind == Vacant || kind == Unaffordable ==>
              Visit(env, st).queues == st.queues && QueueAfter(env, st) == HeadQueue(env, st)
    ensures kind != Vacant && kind != Unaffordable ==>
              Visit(env, st).queues == st.queues[Visited(env, st).id := QueueAfter(env, st)]
    ensures kind != Vacant ==> HeadQueue(env, st) != [] && Visited(env, st).id in st.queues
  {
    match kind
    case Vacant => VisitVacant(env, st);
    case Full => VisitFull(env, st);
    case Unaffordable => VisitUnaffordable(env, st);
    case Refused(reason) => VisitRefused(env, st, reason);
    case Selects => VisitSelects(env, st);
  }

  lemma BlockedAfter(env: Setting, st: State, kind: Kind)
    requires st.cursor < |env.order| && KindOf(env, st) == kind
    ensures kind != Vacant ==> HeadQueue(env, st) != []
    ensures kind == Full ==> Visit(env, st).blocked == Block(st.blocked, HeadQueue(env, st), BlockedConcurrency)
    ensures kind.Refused? ==> Visit(env, st).blocked == st.blocked[HeadQueue(env, st)[0].id := kind.reason]
    ensures kind != Full && !kind.Refused? ==> Visit(env, st).blocked == st.blocked
  {
    match kind
    case Vacant => VisitVacant(env, st);
    case Full => VisitFull(env, st);
    case Unaffordable => VisitUnaffordable(env, st);
    case Refused(reason) => VisitRefused(env, st, reason);
    case Selects => VisitSelects(env, st);
  }

  /** Deficits and quanta after a visit that reaches the head of a queue: one quantum when the
      head was not affordable, and the cost of a selected task taken off. */
  lemma MoneyAfter(env: Setting, st: State)
    requires st.cursor < |env.order| && HeadQueue(env, st) != [] && KindOf(env, st) != Full
    ensures var p, kind, next := Visited(env, st), KindOf(env, st), Visit(env, st);
            var cost, d := Cost(HeadQueue(env, st)[0].effort), DeficitOf(st.deficits, p.id);
            var paid := if d < cost then d + Quantum(p) else d;
            && (kind == Unaffordable <==> paid < cost)
            && (kind != Selects ==> next.deficits == if d < cost then st.deficits[p.id := paid] else st.deficits)
            && (kind == Selects ==> DeficitOf(next.deficits, p.id) == paid - cost)
            && (kind == Selects ==> forall id :: id != p.id ==>
                  DeficitOf(next.deficits, id) == DeficitOf(st.deficits, id))
            && next.quanta == if d < cost then Increment(st.quanta, p.id) else st.quanta
  {
    hide Visit, Refusal, Increment, Stays;
    match KindOf(env, st)
    case Unaffordable => VisitUnaffordable(env, st);
    case Refused(reason) => VisitRefused(env, st, reason);
    case Selects => VisitSelects(env, st);
  }

  lemma NoMoneyAfter(env: Setting, st: State)
    requires st.cursor < |env.order| && (HeadQueue(env, st) == [] || KindOf(env, st) == Full)
    ensures Visit(env, st).deficits == st.deficits && Visit(env, st).quanta == st.quanta
  {
    match KindOf(env, st)
    case Vacant => VisitVacant(env, st);
    case Full => VisitFull(env, st);
  }

  /** Where the cursor goes after a selection. */
  lemma CursorAfter(env: Setting, st: State)
    requires st.cursor < |env.order| && KindOf(env, st) == Selects
    ensures HeadQueue(env, st) != []
    ensures var p, queue, next := Visited(env, st), HeadQueue(env, st), Visit(env, st);
            next.cursor == if Stays(env, next, queue[1..], DeficitOf(next.deficits, p.id), Cost(queue[0].effort))
                           then st.cursor else Advance(st.cursor, |env.order|)
  {
    VisitSelects(env, st);
  }
}
