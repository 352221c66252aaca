/** What each error of a task-graph validation says, and in which order the errors come. */
module TaskGraphErrors {
  import opened Orders
  import opened TaskGraphs

  /** The defect that an error names is there. */
  ghost predicate Applies(graph: TaskGraph, e: GraphError) {
    match e
    case DuplicateIds => exists i, j :: 0 <= i < j < |graph.nodes| && graph.nodes[i].id == graph.nodes[j].id
    case VersionTooSmall => graph.version < 1
    case BaseRevisionMissing => forall i :: 0 <= i < |graph.baseRevision| ==> JsSpace(graph.baseRevision[i])
    case ForeignProject(task) => exists n :: n in graph.nodes && n.id == task && n.projectId != graph.projectId
    case ForeignGraph(task) => exists n :: n in graph.nodes && n.id == task && n.graphId != graph.id
    case SelfDependency(task) => exists n :: n in graph.nodes && n.id == task && task in n.dependsOn
    case MissingDependency(task, dependency) =>
      && dependency != task && (forall n :: n in graph.nodes ==> n.id != dependency)
      && exists n :: n in graph.nodes && n.id == task && dependency in n.dependsOn
    case HasCycle =>
      || !Acyclic(EdgeSet(graph.nodes)) || (exists n :: n in graph.nodes && n.id == "")
      || exists i, j :: 0 <= i < j < |graph.nodes| && graph.nodes[i].id == graph.nodes[j].id
  }

  lemma {:induction false} MembershipMeaning(graph: TaskGraph, nodes: seq<TaskNode>, e: GraphError)
    ensures e in MembershipErrors(graph, nodes) <==>
              match e
              case ForeignProject(task) => exists n :: n in nodes && n.id == task && n.projectId != graph.projectId
              case ForeignGraph(task) => exists n :: n in nodes && n.id == task && n.graphId != graph.id
              case _ => false
  {
    if nodes == [] {
    } else {
      var init, last := nodes[..|nodes|-1], nodes[|nodes|-1];
      MembershipMeaning(graph, init, e);
      assert forall n :: n in nodes <==> n in init || n == last;
    }
  }

  lemma {:induction false} NodeErrorsMeaning(task: string, deps: seq<string>, known: set<string>, e: GraphError)
    ensures e in NodeErrors(task, deps, known) <==>
              match e
              case SelfDependency(t) => t == task && task in deps
              case MissingDependency(t, d) => t == task && d != task && d in deps && d !in known
              case _ => false
  {
    if deps == [] {
    } else {
      NodeErrorsMeaning(task, deps[..|deps|-1], known, e);
      assert forall d :: d in deps <==> d in deps[..|deps|-1] || d == deps[|deps|-1];
    }
  }

  lemma {:induction false} DependencyMeaning(nodes: seq<TaskNode>, known: set<string>, e: GraphError)
    ensures e in DependencyErrors(nodes, known) <==>
              match e
              case SelfDependency(t) => exists n :: n in nodes && n.id == t && t in n.dependsOn
              case MissingDependency(t, d) =>
                d != t && d !in known && exists n :: n in nodes && n.id == t && d in n.dependsOn
              case _ => false
  {
    if nodes == [] {
    } else {
      var init, last := nodes[..|nodes|-1], nodes[|nodes|-1];
      DependencyMeaning(init, known, e);
      NodeErrorsMeaning(last.id, last.dependsOn, known, e);
      assert forall n :: n in nodes <==> n in init || n == last;
    }
  }

  /** The phase that reports an error: the three defects of the graph itself, membership,
      dependencies, the cycle. */
  function Phase(e: GraphError): nat {
    match e
    case DuplicateIds => 0
    case VersionTooSmall => 1
    case BaseRevisionMissing => 2
    case ForeignProject(_) => 3
    case ForeignGraph(_) => 3
    case SelfDependency(_) => 4
    case MissingDependency(_, _) => 4
    case HasCycle => 5
  }

  ghost predicate InPhase(errors: seq<GraphError>, phase: nat) {
    forall e :: e in errors ==> Phase(e) == phase
  }

  /** Phase after phase; only the phases of membership and of dependencies report more than once. */
  ghost predicate InPhases(errors: seq<GraphError>) {
    forall i, j :: 0 <= i < j < |errors| ==>
      Phase(errors[i]) < Phase(errors[j]) || (Phase(errors[i]) == Phase(errors[j]) && Phase(errors[j]) in {3, 4})
  }

  /** The errors of a later phase go behind those of the earlier ones. */
  lemma PhaseFollows(a: seq<GraphError>, b: seq<GraphError>, k: nat)
    requires InPhases(a) && (forall e :: e in a ==> Phase(e) < k)
    requires InPhase(b, k) && (k in {3, 4} || |b| <= 1)
    ensures InPhases(a + b) && forall e :: e in a + b ==> Phase(e) <= k
  {
    hide Phase;
    forall i | 0 <= i < |a| + |b|
      ensures if i < |a| then (a + b)[i] == a[i] && Phase(a[i]) < k else Phase((a + b)[i]) == k
    {
      assert i < |a| ==> a[i] in a;
      assert i >= |a| ==> b[i - |a|] in b && (a + b)[i] == b[i - |a|];
    }
  }

  lemma HeaderPhases(graph: TaskGraph)
    ensures InPhases(HeaderErrors(graph)) && forall e :: e in HeaderErrors(graph) ==> Phase(e) <= 2
    ensures forall e :: e in HeaderErrors(graph) <==> Applies(graph, e) && Phase(e) <= 2
  {
    IdsSize(graph.nodes);
  }

  lemma CycleMeaning(graph: TaskGraph, leq: (string, string) -> bool)
    requires TotalOrder(leq)
    ensures |KahnOrder(graph.nodes, leq)| != |graph.nodes| <==> Applies(graph, HasCycle)
  {
    hide Acyclic, KahnOrder;
    KahnOrderComplete(graph.nodes, leq);
    assert "" in Ids(graph.nodes) <==> exists n :: n in graph.nodes && n.id == "";
  }

  lemma ForeignMeaning(graph: TaskGraph, e: GraphError)
    ensures e in MembershipErrors(graph, graph.nodes) <==> Applies(graph, e) && Phase(e) == 3
    ensures e in DependencyErrors(graph.nodes, Ids(graph.nodes)) <==> Applies(graph, e) && Phase(e) == 4
  {
    MembershipMeaning(graph, graph.nodes, e);
    DependencyMeaning(graph.nodes, Ids(graph.nodes), e);
    assert e.MissingDependency? ==>
        (e.dependency !in Ids(graph.nodes) <==> forall n :: n in graph.nodes ==> n.id != e.dependency);
  }

  /** An error is reported exactly when the defect it names is there, phase after phase; the
      defects of the graph itself and the cycle are reported once. */
  lemma ErrorsAreExact(graph: TaskGraph, leq: (string, string) -> bool)
    requires TotalOrder(leq)
    ensures forall e :: e in ErrorsOf(graph, leq) <==> Applies(graph, e)
    ensures InPhases(ErrorsOf(graph, leq))
  {
    hide Applies, KahnOrder, HeaderErrors, MembershipErrors, DependencyErrors, InPhases;
    var nodes, known := graph.nodes, Ids(graph.nodes);
    var cycle := if |KahnOrder(nodes, leq)| != |nodes| then [HasCycle] else [];
    HeaderPhases(graph);
    CycleMeaning(graph, leq);
    forall e
      ensures e in MembershipErrors(graph, nodes) <==> Applies(graph, e) && Phase(e) == 3
      ensures e in DependencyErrors(nodes, known) <==> Applies(graph, e) && Phase(e) == 4
    {
      ForeignMeaning(graph, e);
    }
    assert forall e :: e in cycle <==> Applies(graph, e) && Phase(e) == 5;
    var header, members, missing := HeaderErrors(graph), MembershipErrors(graph, nodes), DependencyErrors(nodes, known);
    PhaseFollows(header, members, 3);
    PhaseFollows(header + members, missing, 4);
    PhaseFollows(header + members + missing, cycle, 5);
  }
}
