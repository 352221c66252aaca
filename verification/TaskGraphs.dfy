/** Validation of a task graph: Kahn's algorithm with a sorted ready queue. */
module TaskGraphs {
  import opened Orders

  datatype TaskNode = TaskNode(id: string, projectId: string, graphId: string, dependsOn: seq<string>)

  datatype TaskGraph = TaskGraph(
    id: string, projectId: string, version: int, baseRevision: string, nodes: seq<TaskNode>)

  datatype GraphError =
    | DuplicateIds
    | VersionTooSmall
    | BaseRevisionMissing
    | ForeignProject(task: string)
    | ForeignGraph(task: string)
    | SelfDependency(task: string)
    | MissingDependency(task: string, dependency: string)
    | HasCycle

  datatype GraphValidation = GraphValidation(valid: bool, order: seq<string>, errors: seq<GraphError>)

  type Edge = (string, string)  // (dependency, dependent)

  function Ids(nodes: seq<TaskNode>): set<string> {
    set n | n in nodes :: n.id
  }

  function Elements(s: seq<string>): set<string> {
    set x | x in s
  }

  /** White space in the sense of JavaScript's trim. */
  predicate JsSpace(c: char) {
    '\t' <= c <= '\r' || c == ' ' || c == '\U{00A0}' || c == '\U{1680}' || '\U{2000}' <= c <= '\U{200A}'
    || c == '\U{2028}' || c == '\U{2029}' || c == '\U{202F}' || c == '\U{205F}' || c == '\U{3000}' || c == '\U{FEFF}'
  }

  predicate Blank(s: string) {
    forall i :: 0 <= i < |s| ==> JsSpace(s[i])
  }

  // ------------------------------------------------- kept dependencies

  predicate Kept(task: string, dependency: string, known: set<string>) {
    dependency != task && dependency in known
  }

  ghost function NodeEdges(task: string, deps: seq<string>, known: set<string>): seq<Edge> {
    if deps == [] then [] else
      var d := deps[|deps|-1];
      NodeEdges(task, deps[..|deps|-1], known) + if Kept(task, d, known) then [(d, task)] else []
  }

  /** The kept dependencies of the nodes, one entry for each listed occurrence. */
  ghost function Edges(nodes: seq<TaskNode>, known: set<string>): seq<Edge> {
    if nodes == [] then [] else
      var n := nodes[|nodes|-1];
      Edges(nodes[..|nodes|-1], known) + NodeEdges(n.id, n.dependsOn, known)
  }

  ghost function EdgeSet(nodes: seq<TaskNode>): set<Edge> {
    set n, d | n in nodes && d in n.dependsOn && Kept(n.id, d, Ids(nodes)) :: (d, n.id)
  }

  lemma {:induction false} NodeEdgesMembers(task: string, deps: seq<string>, known: set<string>, e: Edge)
    ensures e in NodeEdges(task, deps, known) <==> e.1 == task && e.0 in deps && Kept(task, e.0, known)
  {
    if deps == [] {
    } else {
      NodeEdgesMembers(task, deps[..|deps|-1], known, e);
      assert deps == deps[..|deps|-1] + [deps[|deps|-1]];
    }
  }

  lemma {:induction false} EdgesMembers(nodes: seq<TaskNode>, known: set<string>, e: Edge)
    ensures e in Edges(nodes, known) <==>
            exists n :: n in nodes && e.1 == n.id && e.0 in n.dependsOn && Kept(n.id, e.0, known)
  {
    if nodes == [] {
    } else {
      var n := nodes[|nodes|-1];
      EdgesMembers(nodes[..|nodes|-1], known, e);
      NodeEdgesMembers(n.id, n.dependsOn, known, e);
      assert nodes == nodes[..|nodes|-1] + [n];
    }
  }

  // --------------------------------------------------- greedy ordering

  /** Unplaced tasks whose kept dependencies are all placed. */
  ghost function Ready(ids: set<string>, edges: set<Edge>, placed: set<string>): set<string> {
    set v | v in ids && v !in placed && forall u :: (u, v) in edges ==> u in placed
  }

  /** The specification of the algorithm: keep placing the least ready task, and stop at
      the empty identifier, which the program takes for an exhausted queue. */
  ghost function Greedy(ids: set<string>, edges: set<Edge>, leq: (string, string) -> bool, placed: seq<string>)
    : (order: seq<string>)
    requires TotalOrder(leq)
    decreases |ids - Elements(placed)|
  {
    var ready := Ready(ids, edges, Elements(placed));
    if ready == {} then placed else
      var m := Least(ready, leq);
      if m == "" then placed else
        assert Elements(placed + [m]) == Elements(placed) + {m};
        assert ids - Elements(placed + [m]) == ids - Elements(placed) - {m};
        Greedy(ids, edges, leq, placed + [m])
  }

  ghost function KahnOrder(nodes: seq<TaskNode>, leq: (string, string) -> bool): seq<string>
    requires TotalOrder(leq)
  {
    Greedy(Ids(nodes), EdgeSet(nodes), leq, [])
  }

  /** Distinct known tasks, each after everything it depends on. */
  ghost predicate Topological(order: seq<string>, ids: set<string>, edges: set<Edge>) {
    && NoDup(order)
    && (forall v :: v in order ==> v in ids)
    && (forall j, u :: 0 <= j < |order| && (u, order[j]) in edges ==> u in order[..j])
  }

  ghost predicate Walk(p: seq<string>, edges: set<Edge>) {
    forall i :: 0 <= i < |p| - 1 ==> (p[i], p[i+1]) in edges
  }

  ghost predicate Cycle(p: seq<string>, edges: set<Edge>) {
    |p| >= 2 && p[0] == p[|p|-1] && Walk(p, edges)
  }

  ghost predicate Acyclic(edges: set<Edge>) {
    forall p :: !Cycle(p, edges)
  }

  ghost predicate Within(edges: set<Edge>, ids: set<string>) {
    forall u, v :: (u, v) in edges ==> u in ids && v in ids
  }

  // --------------------------------------------------------- soundness

  lemma {:induction false} GreedyIsTopological(
      ids: set<string>, edges: set<Edge>, leq: (string, string) -> bool, placed: seq<string>)
    requires TotalOrder(leq) && Topological(placed, ids, edges)
    ensures Topological(Greedy(ids, edges, leq, placed), ids, edges)
    ensures placed <= Greedy(ids, edges, leq, placed)
    decreases |ids - Elements(placed)|
  {
    var ready := Ready(ids, edges, Elements(placed));
    if ready == {} {
    } else {
      var m := Least(ready, leq);
      if m != "" {
        var next := placed + [m];
        assert ids - Elements(next) == ids - Elements(placed) - {m};
        forall j, u | 0 <= j < |next| && (u, next[j]) in edges ensures u in next[..j] {
          if j < |placed| {
            assert u in placed[..j] && next[..j] == placed[..j];
          } else {
            assert u in Elements(placed) && next[..j] == placed;
          }
        }
        GreedyIsTopological(ids, edges, leq, next);
      }
    }
  }

  // ------------------------------------------------------ completeness

  lemma {:induction false} Pigeonhole(p: seq<string>, s: set<string>)
    requires (forall x :: x in p ==> x in s) && |p| > |s|
    ensures !NoDup(p)
  {
    if NoDup(p) {
      NoDupSize(p);
      assert Elements(p) <= s;
      SubsetSize(Elements(p), s);
      assert false;
    }
  }

  lemma {:induction false} NoDupSize(p: seq<string>)
    requires NoDup(p)
    ensures |Elements(p)| == |p|
  {
    if p == [] {
    } else {
      NoDupSize(p[1..]);
      assert p == [p[0]] + p[1..];
      assert Elements(p) == {p[0]} + Elements(p[1..]);
    }
  }

  lemma {:induction false} SubsetSize(a: set<string>, b: set<string>)
    requires a <= b
    ensures |a| <= |b|
  {
    if a == {} {
    } else {
      var x :| x in a;
      SubsetSize(a - {x}, b - {x});
    }
  }

  lemma SameSizeSubset(a: set<string>, b: set<string>)
    requires a <= b
    ensures |a| == |b| <==> a == b
  {
    SubsetSize({}, b - a);
    assert b == a + (b - a);
    assert |b| == |a| + |b - a|;
  }

  ghost predicate HasPredecessor(x: string, r: set<string>, edges: set<Edge>) {
    exists u :: u in r && (u, x) in edges
  }

  ghost predicate Stuck(r: set<string>, edges: set<Edge>) {
    forall x {:trigger HasPredecessor(x, r, edges)} :: x in r ==> HasPredecessor(x, r, edges)
  }

  /** Where every task has a predecessor, walk backwards k steps. */
  lemma {:induction false} WalkBack(r: set<string>, edges: set<Edge>, v: string, k: nat) returns (p: seq<string>)
    requires v in r && Stuck(r, edges)
    ensures |p| == k + 1 && p[k] == v && Walk(p, edges) && forall x :: x in p ==> x in r
    decreases k
  {
    if k == 0 {
      p := [v];
    } else {
      assert HasPredecessor(v, r, edges);
      var u :| u in r && (u, v) in edges;
      var q := WalkBack(r, edges, u, k - 1);
      p := q + [v];
    }
  }

  lemma RepeatIsCycle(p: seq<string>, edges: set<Edge>, i: nat, j: nat)
    requires i < j < |p| && p[i] == p[j] && Walk(p, edges)
    ensures Cycle(p[i..j+1], edges)
  {
    var c := p[i..j+1];
    forall k | 0 <= k < |c| - 1 ensures (c[k], c[k+1]) in edges {
      assert (p[i+k], p[i+k+1]) in edges;
    }
  }

  lemma StuckHasCycle(r: set<string>, edges: set<Edge>)
    requires r != {} && Stuck(r, edges)
    ensures !Acyclic(edges)
  {
    var v :| v in r;
    var p := WalkBack(r, edges, v, |r|);
    Pigeonhole(p, r);
    var i, j :| 0 <= i < j < |p| && p[i] == p[j];
    RepeatIsCycle(p, edges, i, j);
  }

  lemma {:induction false} WalkAdvances(p: seq<string>, order: seq<string>, ids: set<string>, edges: set<Edge>,
      k: nat, i: nat)
    returns (j: nat)
    requires Topological(order, ids, edges) && Walk(p, edges) && k < |p|
    requires i < |order| && order[i] == p[|p|-1]
    ensures j < |order| && order[j] == p[|p|-1-k] && j + k <= i
  {
    if k == 0 {
      j := i;
    } else {
      var h := WalkAdvances(p, order, ids, edges, k - 1, i);
      assert (p[|p|-1-k], p[|p|-1-k+1]) in edges;
      assert p[|p|-1-k] in order[..h];
      j :| 0 <= j < h && order[j] == p[|p|-1-k];
    }
  }

  lemma OrderedMeansAcyclic(order: seq<string>, ids: set<string>, edges: set<Edge>)
    requires Topological(order, ids, edges) && Within(edges, ids)
    requires forall v :: v in ids ==> v in order
    ensures Acyclic(edges)
  {
    forall p ensures !Cycle(p, edges) {
      if Cycle(p, edges) {
        assert (p[|p|-2], p[|p|-2+1]) in edges;
        var i :| 0 <= i < |order| && order[i] == p[|p|-1];
        var j := WalkAdvances(p, order, ids, edges, |p| - 1, i);
        assert false;
      }
    }
  }

  lemma {:induction false} GreedyStop(ids: set<string>, edges: set<Edge>, leq: (string, string) -> bool,
      placed: seq<string>)
    requires TotalOrder(leq) && "" !in placed
    ensures var g := Greedy(ids, edges, leq, placed);
            "" !in g && ("" in ids || Ready(ids, edges, Elements(g)) == {})
    decreases |ids - Elements(placed)|
  {
    var ready := Ready(ids, edges, Elements(placed));
    if ready == {} {
    } else {
      var m := Least(ready, leq);
      if m != "" {
        assert ids - Elements(placed + [m]) == ids - Elements(placed) - {m};
        GreedyStop(ids, edges, leq, placed + [m]);
      }
    }
  }

  lemma NothingReadyMeansCycle(ids: set<string>, edges: set<Edge>, placed: set<string>)
    requires Within(edges, ids) && placed < ids && Ready(ids, edges, placed) == {}
    ensures !Acyclic(edges)
  {
    var r := ids - placed;
    assert ids == placed + r;
    forall x | x in r ensures HasPredecessor(x, r, edges) {
      assert x !in Ready(ids, edges, placed);
      var u :| (u, x) in edges && u !in placed;
      assert u in r;
    }
    StuckHasCycle(r, edges);
  }

  /** The order covers every task exactly when the kept dependencies have no cycle (and no
      task has the empty identifier). */
  lemma GreedyCompleteIffAcyclic(ids: set<string>, edges: set<Edge>, leq: (string, string) -> bool)
    requires TotalOrder(leq) && Within(edges, ids)
    ensures var g := Greedy(ids, edges, leq, []);
            (|g| == |ids| <==> Elements(g) == ids) && |g| <= |ids|
            && (Elements(g) == ids <==> Acyclic(edges) && "" !in ids)
  {
    var g := Greedy(ids, edges, leq, []);
    GreedyIsTopological(ids, edges, leq, []);
    GreedyStop(ids, edges, leq, []);
    NoDupSize(g);
    SubsetSize(Elements(g), ids);
    SameSizeSubset(Elements(g), ids);
    if Elements(g) == ids {
      OrderedMeansAcyclic(g, ids, edges);
    } else if "" !in ids {
      NothingReadyMeansCycle(ids, edges, Elements(g));
    }
  }

  // -------------------------------------------------- least of all orders

  /** At the first difference a is below b, or a is a prefix of b. */
  ghost predicate LexLeq(a: seq<string>, b: seq<string>, leq: (string, string) -> bool) {
    a == [] || (b != [] && ((a[0] != b[0] && leq(a[0], b[0])) || (a[0] == b[0] && LexLeq(a[1..], b[1..], leq))))
  }

  lemma {:induction false} LexByIndex(a: seq<string>, b: seq<string>, leq: (string, string) -> bool, k: nat)
    requires k <= |a| && k <= |b| && a[..k] == b[..k]
    requires k == |a| || (k < |b| && a[k] != b[k] && leq(a[k], b[k]))
    ensures LexLeq(a, b, leq)
  {
    if k == 0 {
    } else {
      assert a[0] == a[..k][0] == b[..k][0] == b[0];
      assert a[1..][..k-1] == a[..k][1..] == b[..k][1..] == b[1..][..k-1];
      LexByIndex(a[1..], b[1..], leq, k - 1);
    }
  }

  /** No topological order of all the tasks comes before the greedy one. */
  lemma {:induction false} GreedyIsLeast(
      ids: set<string>, edges: set<Edge>, leq: (string, string) -> bool, placed: seq<string>, other: seq<string>)
    requires TotalOrder(leq)
    requires Topological(other, ids, edges) && Elements(other) == ids && placed <= other
    ensures LexLeq(Greedy(ids, edges, leq, placed), other, leq)
    decreases |ids - Elements(placed)|
  {
    var ready := Ready(ids, edges, Elements(placed));
    var k := |placed|;
    if ready == {} || Least(ready, leq) == "" {
      LexByIndex(placed, other, leq, k);
    } else {
      var m := Least(ready, leq);
      var next := placed + [m];
      assert ids - Elements(next) == ids - Elements(placed) - {m};
      assert m in other && m !in placed;
      var c := other[k];
      assert c in ready by {
        assert other[..k] == placed;
        assert forall u :: (u, c) in edges ==> u in other[..k];
        assert forall i :: 0 <= i < k ==> other[i] != c;
      }
      if c == m {
        assert next <= other;
        GreedyIsLeast(ids, edges, leq, next, other);
      } else {
        GreedyExtends(ids, edges, leq, next);
        var g := Greedy(ids, edges, leq, next);
        assert g[..k] == next[..k] == placed == other[..k] && g[k] == next[k];
        LexByIndex(g, other, leq, k);
      }
    }
  }

  lemma {:induction false} GreedyExtends(ids: set<string>, edges: set<Edge>, leq: (string, string) -> bool,
      placed: seq<string>)
    requires TotalOrder(leq)
    ensures placed <= Greedy(ids, edges, leq, placed)
    decreases |ids - Elements(placed)|
  {
    var ready := Ready(ids, edges, Elements(placed));
    if ready == {} {
    } else {
      var m := Least(ready, leq);
      if m != "" {
        assert ids - Elements(placed + [m]) == ids - Elements(placed) - {m};
        GreedyExtends(ids, edges, leq, placed + [m]);
      }
    }
  }

  // ------------------------------------------------------------- counting

  /** Occurrences of edges into v whose source is not placed. */
  ghost function CountInto(es: seq<Edge>, v: string, placed: set<string>): nat {
    if es == [] then 0 else
      CountInto(es[..|es|-1], v, placed) + if es[|es|-1].1 == v && es[|es|-1].0 !in placed then 1 else 0
  }

  /** The dependents of u, in the order the edges were found. */
  ghost function DependentsOf(es: seq<Edge>, u: string): seq<string> {
    if es == [] then [] else
      DependentsOf(es[..|es|-1], u) + if es[|es|-1].0 == u then [es[|es|-1].1] else []
  }

  lemma {:induction false} CountZero(es: seq<Edge>, v: string, placed: set<string>)
    ensures CountInto(es, v, placed) == 0 <==> forall u :: (u, v) in es ==> u in placed
  {
    if es == [] {
    } else {
      var e := es[|es|-1];
      CountZero(es[..|es|-1], v, placed);
      assert es == es[..|es|-1] + [e];
    }
  }

  lemma {:induction false} PlacingReleases(es: seq<Edge>, v: string, placed: set<string>, u: string)
    requires u !in placed
    ensures CountInto(es, v, placed) == CountInto(es, v, placed + {u}) + multiset(DependentsOf(es, u))[v]
  {
    if es == [] {
    } else {
      PlacingReleases(es[..|es|-1], v, placed, u);
    }
  }

  lemma {:induction false} DependentsKnown(es: seq<Edge>, u: string, ids: set<string>)
    requires forall e :: e in es ==> e.1 in ids
    ensures forall v :: v in DependentsOf(es, u) ==> v in ids
  {
    if es == [] {
    } else {
      assert es == es[..|es|-1] + [es[|es|-1]];
      DependentsKnown(es[..|es|-1], u, ids);
    }
  }

  // ---------------------------------------------------------------- errors

  ghost function MembershipErrors(graph: TaskGraph, nodes: seq<TaskNode>): seq<GraphError> {
    if nodes == [] then [] else
      var n := nodes[|nodes|-1];
      MembershipErrors(graph, nodes[..|nodes|-1])
      + (if n.projectId != graph.projectId then [ForeignProject(n.id)] else [])
      + (if n.graphId != graph.id then [ForeignGraph(n.id)] else [])
  }

  ghost function NodeErrors(task: string, deps: seq<string>, known: set<string>): seq<GraphError> {
    if deps == [] then [] else
      var d := deps[|deps|-1];
      NodeErrors(task, deps[..|deps|-1], known)
      + if d == task then [SelfDependency(task)] else if d !in known then [MissingDependency(task, d)] else []
  }

  ghost function DependencyErrors(nodes: seq<TaskNode>, known: set<string>): seq<GraphError> {
    if nodes == [] then [] else
      var n := nodes[|nodes|-1];
      DependencyErrors(nodes[..|nodes|-1], known) + NodeErrors(n.id, n.dependsOn, known)
  }

  ghost function HeaderErrors(graph: TaskGraph): seq<GraphError> {
    (if |Ids(graph.nodes)| != |graph.nodes| then [DuplicateIds] else [])
    + (if graph.version < 1 then [VersionTooSmall] else [])
    + (if Blank(graph.baseRevision) then [BaseRevisionMissing] else [])
  }

  ghost predicate DependenciesExist(n: TaskNode, known: set<string>) {
    forall d :: d in n.dependsOn ==> d != n.id && d in known
  }

  /** What makes a graph acceptable, without reference to the algorithm. */
  ghost predicate WellFormed(graph: TaskGraph) {
    && DistinctIds(graph.nodes)
    && graph.version >= 1
    && !Blank(graph.baseRevision)
    && (forall n :: n in graph.nodes ==> n.projectId == graph.projectId && n.graphId == graph.id && n.id != "")
    && (forall n :: n in graph.nodes ==> DependenciesExist(n, Ids(graph.nodes)))
    && Acyclic(EdgeSet(graph.nodes))
  }

  lemma {:induction false} MembershipErrorsNone(graph: TaskGraph, nodes: seq<TaskNode>)
    ensures MembershipErrors(graph, nodes) == [] <==>
            forall n :: n in nodes ==> n.projectId == graph.projectId && n.graphId == graph.id
  {
    if nodes == [] {
    } else {
      MembershipErrorsNone(graph, nodes[..|nodes|-1]);
      assert nodes == nodes[..|nodes|-1] + [nodes[|nodes|-1]];
    }
  }

  lemma {:induction false} NodeErrorsNone(task: string, deps: seq<string>, known: set<string>)
    ensures NodeErrors(task, deps, known) == [] <==> forall d :: d in deps ==> d != task && d in known
  {
    if deps == [] {
    } else {
      var d, init := deps[|deps|-1], deps[..|deps|-1];
      NodeErrorsNone(task, init, known);
      assert forall x :: x in deps <==> x in init || x == d;
      if NodeErrors(task, init, known) != [] {
        assert |NodeErrors(task, deps, known)| >= |NodeErrors(task, init, known)| > 0;
      }
    }
  }

  lemma {:induction false} DependencyErrorsNone(nodes: seq<TaskNode>, known: set<string>)
    ensures DependencyErrors(nodes, known) == [] <==>
            forall n :: n in nodes ==> DependenciesExist(n, known)
  {
    if nodes == [] {
    } else {
      var n, init := nodes[|nodes|-1], nodes[..|nodes|-1];
      DependencyErrorsNone(init, known);
      NodeErrorsNone(n.id, n.dependsOn, known);
      assert forall m :: m in nodes <==> m in init || m == n;
      assert DependenciesExist(n, known) <==> NodeErrors(n.id, n.dependsOn, known) == [];
      assert (forall m :: m in nodes ==> DependenciesExist(m, known))
        <==> (forall m :: m in init ==> DependenciesExist(m, known)) && DependenciesExist(n, known);
      if DependencyErrors(init, known) == [] {
        assert DependencyErrors(nodes, known) == NodeErrors(n.id, n.dependsOn, known);
      } else {
        assert |DependencyErrors(nodes, known)| >= |DependencyErrors(init, known)| > 0;
      }
    }
  }

  ghost predicate DistinctIds(nodes: seq<TaskNode>) {
    forall i, j :: 0 <= i < j < |nodes| ==> nodes[i].id != nodes[j].id
  }

  lemma IdsOfOneMore(init: seq<TaskNode>, n: TaskNode)
    ensures Ids(init + [n]) == Ids(init) + {n.id}
    ensures DistinctIds(init + [n]) <==> DistinctIds(init) && n.id !in Ids(init)
  {
    var nodes := init + [n];
    assert forall m :: m in nodes <==> m in init || m == n;
    forall i | 0 <= i < |init| ensures nodes[i] == init[i] && init[i].id in Ids(init) {
      assert init[i] in init;
    }
    if DistinctIds(nodes) {
      forall i | 0 <= i < |init| ensures init[i].id != n.id {
        assert nodes[i].id != nodes[|init|].id;
      }
    }
  }

  lemma {:induction false} IdsSize(nodes: seq<TaskNode>)
    ensures |Ids(nodes)| <= |nodes|
    ensures |Ids(nodes)| == |nodes| <==> DistinctIds(nodes)
  {
    if nodes == [] {
      assert Ids(nodes) == {};
    } else {
      hide DistinctIds, Ids;
      var n, init := nodes[|nodes|-1], nodes[..|nodes|-1];
      assert nodes == init + [n];
      IdsSize(init);
      IdsOfOneMore(init, n);
    }
  }

  lemma EdgesWithin(nodes: seq<TaskNode>)
    ensures Within(EdgeSet(nodes), Ids(nodes))
  {
  }

  // ------------------------------------------------------- the algorithm

  ghost predicate Linked(indegree: map<string, nat>, dependents: map<string, seq<string>>, es: seq<Edge>) {
    && (forall v :: v in indegree ==> indegree[v] == CountInto(es, v, {}))
    && (forall u :: DependentsOf(es, u) == if u in dependents then dependents[u] else [])
  }

  lemma LinkedStep(indegree: map<string, nat>, dependents: map<string, seq<string>>, es: seq<Edge>, d: string,
      v: string)
    requires Linked(indegree, dependents, es) && v in indegree
    ensures Linked(indegree[v := indegree[v] + 1],
                   dependents[d := (if d in dependents then dependents[d] else []) + [v]],
                   es + [(d, v)])
  {
    assert (es + [(d, v)])[..|es|] == es;
  }

  /** Counts, links and errors after the first j entries of a node's dependency list. */
  ghost predicate LinkedUpTo(
      n: TaskNode, known: set<string>, es: seq<Edge>, j: nat,
      indegree: map<string, nat>, dependents: map<string, seq<string>>, errors: seq<GraphError>, es': seq<Edge>)
    requires j <= |n.dependsOn|
  {
    && indegree.Keys == known
    && es' == es + NodeEdges(n.id, n.dependsOn[..j], known)
    && Linked(indegree, dependents, es')
    && errors == NodeErrors(n.id, n.dependsOn[..j], known)
  }

  lemma ReportEntry(
      n: TaskNode, known: set<string>, es: seq<Edge>, j: nat,
      indegree: map<string, nat>, dependents: map<string, seq<string>>, errors: seq<GraphError>, es': seq<Edge>)
    requires j < |n.dependsOn| && LinkedUpTo(n, known, es, j, indegree, dependents, errors, es')
    requires !Kept(n.id, n.dependsOn[j], known)
    ensures var d := n.dependsOn[j];
            var error := if d == n.id then SelfDependency(n.id) else MissingDependency(n.id, d);
            LinkedUpTo(n, known, es, j + 1, indegree, dependents, errors + [error], es')
  {
    hide Linked;
    assert n.dependsOn[..j+1][..j] == n.dependsOn[..j];
  }

  lemma KeepEntry(
      n: TaskNode, known: set<string>, es: seq<Edge>, j: nat,
      indegree: map<string, nat>, dependents: map<string, seq<string>>, errors: seq<GraphError>, es': seq<Edge>)
    requires j < |n.dependsOn| && LinkedUpTo(n, known, es, j, indegree, dependents, errors, es')
    requires Kept(n.id, n.dependsOn[j], known) && n.id in known
    ensures var d := n.dependsOn[j];
            LinkedUpTo(n, known, es, j + 1, indegree[n.id := indegree[n.id] + 1],
                       dependents[d := (if d in dependents then dependents[d] else []) + [n.id]],
                       errors, es' + [(d, n.id)])
  {
    hide Linked;
    assert n.dependsOn[..j+1][..j] == n.dependsOn[..j];
    LinkedStep(indegree, dependents, es', n.dependsOn[j], n.id);
  }

  lemma AllEntries(
      n: TaskNode, known: set<string>, es: seq<Edge>,
      indegree: map<string, nat>, dependents: map<string, seq<string>>, errors: seq<GraphError>, es': seq<Edge>)
    requires LinkedUpTo(n, known, es, |n.dependsOn|, indegree, dependents, errors, es')
    ensures es' == es + NodeEdges(n.id, n.dependsOn, known) && Linked(indegree, dependents, es')
    ensures errors == NodeErrors(n.id, n.dependsOn, known)
  {
    hide Linked;
    assert n.dependsOn[..|n.dependsOn|] == n.dependsOn;
  }

  /** One node's dependency list: reports bad entries, counts and links the kept ones. */
  method LinkNode(
      node: TaskNode, known: set<string>, indegree: map<string, nat>, dependents: map<string, seq<string>>,
      ghost es: seq<Edge>)
    returns (
      indegree': map<string, nat>, dependents': map<string, seq<string>>, errors: seq<GraphError>,
      ghost es': seq<Edge>)
    requires indegree.Keys == known && node.id in known
    requires Linked(indegree, dependents, es)
    ensures indegree'.Keys == known
    ensures es' == es + NodeEdges(node.id, node.dependsOn, known)
    ensures Linked(indegree', dependents', es')
    ensures errors == NodeErrors(node.id, node.dependsOn, known)
  {
    indegree', dependents', errors, es' := indegree, dependents, [], es;
    assert LinkedUpTo(node, known, es, 0, indegree', dependents', errors, es');
    hide LinkedUpTo, Linked;
    for j := 0 to |node.dependsOn|
      invariant indegree'.Keys == known
      invariant LinkedUpTo(node, known, es, j, indegree', dependents', errors, es')
    {
      var d := node.dependsOn[j];
      if d == node.id {
        ReportEntry(node, known, es, j, indegree', dependents', errors, es');
        errors := errors + [SelfDependency(node.id)];
      } else if d !in known {
        ReportEntry(node, known, es, j, indegree', dependents', errors, es');
        errors := errors + [MissingDependency(node.id, d)];
      } else {
        KeepEntry(node, known, es, j, indegree', dependents', errors, es');
        indegree' := indegree'[node.id := indegree'[node.id] + 1];
        var entries := if d in dependents' then dependents'[d] else [];
        dependents' := dependents'[d := entries + [node.id]];
        es' := es' + [(d, node.id)];
      }
    }
    AllEntries(node, known, es, indegree', dependents', errors, es');
  }

  lemma Enqueue(queue: seq<string>, v: string, leq: (string, string) -> bool)
    requires TotalOrder(leq) && NoDup(queue) && v !in queue
    ensures Sorted(Sort(queue + [v], leq), leq) && NoDup(Sort(queue + [v], leq))
    ensures forall x :: x in Sort(queue + [v], leq) <==> x in queue || x == v
  {
    var pushed := queue + [v];
    SortSorts(pushed, leq);
    SortPermutes(pushed, leq);
    NoDupFromMultiset(pushed, Sort(pushed, leq));
    forall x ensures x in Sort(pushed, leq) <==> x in queue || x == v {
      SortMembers(pushed, leq, x);
    }
  }

  /** Counts and queue after the occurrences in gone have been announced. */
  ghost predicate Releasing(indegree: map<string, nat>, now: map<string, nat>, queue: seq<string>, waiting: seq<string>,
                            gone: multiset<string>) {
    && now.Keys == indegree.Keys
    && (forall v :: v in indegree ==> now[v] + gone[v] == indegree[v])
    && (forall v :: v in waiting <==> v in queue || (v in now && gone[v] > 0 && now[v] == 0))
  }

  lemma ReleaseStep(indegree: map<string, nat>, now: map<string, nat>, queue: seq<string>, waiting: seq<string>,
                    gone: multiset<string>, v: string, waiting': seq<string>)
    requires Releasing(indegree, now, queue, waiting, gone)
    requires v in indegree && v !in queue && gone[v] < indegree[v]
    requires now[v] > 0
    requires forall x :: x in waiting' <==> x in waiting || (x == v && now[v] == 1)
    ensures Releasing(indegree, now[v := now[v] - 1], queue, waiting', gone + multiset{v})
    ensures v !in waiting
  {
  }

  /** Announces one placed task to its dependents; those left without dependencies join the queue. */
  method Release(ds: seq<string>, leq: (string, string) -> bool, indegree: map<string, nat>, queue: seq<string>)
    returns (indegree': map<string, nat>, queue': seq<string>)
    requires TotalOrder(leq)
    requires forall v :: v in ds ==> v in indegree && v !in queue
    requires forall v :: v in indegree ==> multiset(ds)[v] <= indegree[v]
    requires Sorted(queue, leq) && NoDup(queue)
    ensures Sorted(queue', leq) && NoDup(queue')
    ensures Releasing(indegree, indegree', queue, queue', multiset(ds))
  {
    indegree', queue' := indegree, queue;
    for k := 0 to |ds|
      invariant Sorted(queue', leq) && NoDup(queue')
      invariant Releasing(indegree, indegree', queue, queue', multiset(ds[..k]))
    {
      var v := ds[k];
      assert ds[..k+1] == ds[..k] + [v];
      assert ds == ds[..k+1] + ds[k+1..];
      assert multiset(ds)[v] >= multiset(ds[..k+1])[v] == multiset(ds[..k])[v] + 1;
      ghost var before, waiting := indegree', queue';
      var next := indegree'[v] - 1;
      indegree' := indegree'[v := next];
      if next == 0 {
        assert v !in queue';
        Enqueue(queue', v, leq);
        queue' := Sort(queue' + [v], leq);
      }
      ReleaseStep(indegree, before, queue, waiting, multiset(ds[..k]), v, queue');
    }
    assert ds[..|ds|] == ds;
  }

  /** Queue and counts after a number of tasks have been placed. */
  ghost predicate Draining(ids: set<string>, es: seq<Edge>, leq: (string, string) -> bool,
                           placed: seq<string>, indegree: map<string, nat>, queue: seq<string>) {
    && indegree.Keys == ids
    && NoDup(placed) && Elements(placed) <= ids
    && (forall v :: v in ids ==> indegree[v] == CountInto(es, v, Elements(placed)))
    && (forall v :: v in placed ==> indegree[v] == 0)
    && Sorted(queue, leq) && NoDup(queue)
    && (forall v :: v in queue <==> v in ids && v !in placed && indegree[v] == 0)
  }

  lemma QueueIsReady(ids: set<string>, es: seq<Edge>, edges: set<Edge>, leq: (string, string) -> bool,
                     placed: seq<string>, indegree: map<string, nat>, queue: seq<string>)
    requires TotalOrder(leq) && Draining(ids, es, leq, placed, indegree, queue)
    requires forall e :: e in es <==> e in edges
    ensures Ready(ids, edges, Elements(placed)) == Elements(queue)
    ensures queue != [] ==> queue[0] in Elements(queue) && Least(Elements(queue), leq) == queue[0]
  {
    forall v | v in ids
      ensures v in Ready(ids, edges, Elements(placed)) <==> v in queue
    {
      CountZero(es, v, Elements(placed));
    }
    if queue != [] {
      assert queue[0] in Elements(queue);
      forall y | y in Elements(queue) ensures leq(queue[0], y) {
        var j :| 0 <= j < |queue| && queue[j] == y;
        assert j == 0 || leq(queue[0], queue[j]);
      }
    }
  }

  /** Placing id leaves its dependents with that many dependencies fewer. */
  lemma CountsAfter(ids: set<string>, es: seq<Edge>, leq: (string, string) -> bool, id: string, ds: seq<string>,
      sorted: seq<string>, placed: seq<string>, indegree: map<string, nat>)
    requires indegree.Keys == ids && id !in placed
    requires forall v :: v in ids ==> indegree[v] == CountInto(es, v, Elements(placed))
    requires ds == DependentsOf(es, id) && sorted == Sort(ds, leq)
    requires forall e :: e in es ==> e.0 in ids && e.1 in ids
    ensures forall v :: v in ids ==> indegree[v] == CountInto(es, v, Elements(placed + [id])) + multiset(sorted)[v]
    ensures forall v :: v in sorted ==> v in ids && indegree[v] > 0
  {
    assert Elements(placed + [id]) == Elements(placed) + {id};
    SortPermutes(ds, leq);
    DependentsKnown(es, id, ids);
    forall v | v in ids
      ensures indegree[v] == CountInto(es, v, Elements(placed + [id])) + multiset(sorted)[v]
    {
      PlacingReleases(es, v, Elements(placed), id);
    }
    forall v | v in sorted ensures v in ids && indegree[v] > 0 {
      SortMembers(ds, leq, v);
      assert multiset(sorted)[v] > 0;
    }
  }

  lemma AfterRelease(ids: set<string>, es: seq<Edge>, leq: (string, string) -> bool, placed: seq<string>,
                     indegree: map<string, nat>, queue: seq<string>, sorted: seq<string>,
                     indegree': map<string, nat>, queue': seq<string>)
    requires queue != [] && Draining(ids, es, leq, placed, indegree, queue)
    requires Sorted(queue', leq) && NoDup(queue')
    requires forall v :: v in ids ==>
               indegree[v] == CountInto(es, v, Elements(placed + [queue[0]])) + multiset(sorted)[v]
    requires Releasing(indegree, indegree', queue[1..], queue', multiset(sorted))
    requires forall v :: v in sorted ==> v in ids && indegree[v] > 0
    ensures Draining(ids, es, leq, placed + [queue[0]], indegree', queue')
  {
    var placed' := placed + [queue[0]];
    assert queue[0] in queue;
    assert forall v :: v in placed' <==> v in placed || v == queue[0];
    assert forall v :: v in queue[1..] <==> v in queue && v != queue[0];
    assert forall v :: v in sorted <==> multiset(sorted)[v] > 0;
  }

  /** Places the front of the queue. */
  method PlaceFront(ids: set<string>, ghost es: seq<Edge>, leq: (string, string) -> bool,
      dependents: map<string, seq<string>>, placed: seq<string>, indegree: map<string, nat>, queue: seq<string>)
    returns (placed': seq<string>, indegree': map<string, nat>, queue': seq<string>)
    requires TotalOrder(leq) && queue != []
    requires Draining(ids, es, leq, placed, indegree, queue)
    requires forall u :: DependentsOf(es, u) == if u in dependents then dependents[u] else []
    requires forall e :: e in es ==> e.0 in ids && e.1 in ids
    ensures placed' == placed + [queue[0]]
    ensures Draining(ids, es, leq, placed', indegree', queue')
  {
    var id := queue[0];
    var rest := queue[1..];
    assert id in queue;
    placed' := placed + [id];
    assert forall v :: v in rest <==> v in queue && v != id;
    var ds := if id in dependents then dependents[id] else [];
    var sorted := Sort(ds, leq);
    CountsAfter(ids, es, leq, id, ds, sorted, placed, indegree);
    indegree', queue' := Release(sorted, leq, indegree, rest);
    AfterRelease(ids, es, leq, placed, indegree, queue, sorted, indegree', queue');
  }

  ghost function ErrorsOf(graph: TaskGraph, leq: (string, string) -> bool): seq<GraphError>
    requires TotalOrder(leq)
  {
    HeaderErrors(graph) + MembershipErrors(graph, graph.nodes) + DependencyErrors(graph.nodes, Ids(graph.nodes))
    + if |KahnOrder(graph.nodes, leq)| != |graph.nodes| then [HasCycle] else []
  }

  /** First pass: zero counts and membership errors. */
  method CheckMembership(graph: TaskGraph) returns (indegree: map<string, nat>, errors: seq<GraphError>)
    ensures indegree.Keys == Ids(graph.nodes) && forall v :: v in indegree ==> indegree[v] == 0
    ensures errors == MembershipErrors(graph, graph.nodes)
  {
    indegree, errors := map[], [];
    var nodes := graph.nodes;
    for i := 0 to |nodes|
      invariant indegree.Keys == Ids(nodes[..i]) && forall v :: v in indegree ==> indegree[v] == 0
      invariant errors == MembershipErrors(graph, nodes[..i])
    {
      assert nodes[..i+1] == nodes[..i] + [nodes[i]];
      indegree := indegree[nodes[i].id := 0];
      if nodes[i].projectId != graph.projectId {
        errors := errors + [ForeignProject(nodes[i].id)];
      }
      if nodes[i].graphId != graph.id {
        errors := errors + [ForeignGraph(nodes[i].id)];
      }
    }
    assert nodes[..|nodes|] == nodes;
  }

  /** Second pass: counts, links and dependency errors. */
  method LinkNodes(nodes: seq<TaskNode>, known: set<string>, zero: map<string, nat>)
    returns (indegree: map<string, nat>, dependents: map<string, seq<string>>, errors: seq<GraphError>,
             ghost es: seq<Edge>)
    requires known == Ids(nodes)
    requires zero.Keys == known && forall v :: v in zero ==> zero[v] == 0
    ensures indegree.Keys == known
    ensures es == Edges(nodes, known) && Linked(indegree, dependents, es)
    ensures errors == DependencyErrors(nodes, known)
  {
    indegree, dependents, errors, es := zero, map[], [], [];
    for i := 0 to |nodes|
      invariant indegree.Keys == known
      invariant es == Edges(nodes[..i], known) && Linked(indegree, dependents, es)
      invariant errors == DependencyErrors(nodes[..i], known)
    {
      assert nodes[..i+1][..i] == nodes[..i];
      assert nodes[i].id in known;
      var more;
      indegree, dependents, more, es := LinkNode(nodes[i], known, indegree, dependents, es);
      errors := errors + more;
    }
    assert nodes[..|nodes|] == nodes;
  }

  /** Third pass: drain the sorted queue of tasks without open dependencies. */
  method Drain(ids: set<string>, ghost es: seq<Edge>, ghost edges: set<Edge>, leq: (string, string) -> bool,
               indegree: map<string, nat>, dependents: map<string, seq<string>>)
    returns (order: seq<string>)
    requires TotalOrder(leq) && indegree.Keys == ids && Linked(indegree, dependents, es)
    requires Within(edges, ids) && forall e :: e in es <==> e in edges
    ensures order == Greedy(ids, edges, leq, [])
  {
    var counts := indegree;
    var free := set v | v in counts && counts[v] == 0;
    var queue := Ascending(free, leq);
    order := [];
    assert Elements(order) == {};
    assert Draining(ids, es, leq, order, counts, queue);
    hide Ready, Sorted, NoDup, TotalOrder;
    while queue != []
      invariant Draining(ids, es, leq, order, counts, queue)
      invariant Greedy(ids, edges, leq, order) == Greedy(ids, edges, leq, [])
      decreases |ids| - |order|
    {
      QueueIsReady(ids, es, edges, leq, order, counts, queue);
      NoDupSize(order);
      SameSizeSubset(Elements(order), ids);
      SubsetSize(Elements(order), ids);
      assert queue[0] in queue;
      if queue[0] == "" {
        break;
      }
      order, counts, queue := PlaceFront(ids, es, leq, dependents, order, counts, queue);
    }
    QueueIsReady(ids, es, edges, leq, order, counts, queue);
  }

  lemma EdgesAreEdgeSet(nodes: seq<TaskNode>)
    ensures forall e :: e in Edges(nodes, Ids(nodes)) <==> e in EdgeSet(nodes)
    ensures Within(EdgeSet(nodes), Ids(nodes))
  {
    forall e ensures e in Edges(nodes, Ids(nodes)) <==> e in EdgeSet(nodes) {
      EdgesMembers(nodes, Ids(nodes), e);
    }
  }

  /** The whole validation. */
  method ValidateTaskGraph(graph: TaskGraph, leq: (string, string) -> bool) returns (v: GraphValidation)
    requires TotalOrder(leq)
    ensures v.order == KahnOrder(graph.nodes, leq)
    ensures v.errors == ErrorsOf(graph, leq)
    ensures v.valid <==> WellFormed(graph)
  {
    var known := Ids(graph.nodes);
    var errors := [];
    if |known| != |graph.nodes| {
      errors := errors + [DuplicateIds];
    }
    if graph.version < 1 {
      errors := errors + [VersionTooSmall];
    }
    if Blank(graph.baseRevision) {
      errors := errors + [BaseRevisionMissing];
    }
    assert errors == HeaderErrors(graph);
    var zero, foreign := CheckMembership(graph);
    var indegree, dependents, missing, es := LinkNodes(graph.nodes, known, zero);
    errors := errors + foreign + missing;
    EdgesAreEdgeSet(graph.nodes);
    var order := Drain(known, es, EdgeSet(graph.nodes), leq, indegree, dependents);
    if |order| != |graph.nodes| {
      errors := errors + [HasCycle];
    }
    assert errors == ErrorsOf(graph, leq);
    ValidIffWellFormed(graph, leq);
    v := GraphValidation(errors == [], order, errors);
  }

  // ---------------------------------------------------------- main results

  /** Whatever the graph, the reported order has no repeats and puts every kept dependency
      before its dependent. */
  lemma KahnOrderSound(nodes: seq<TaskNode>, leq: (string, string) -> bool)
    requires TotalOrder(leq)
    ensures NoDup(KahnOrder(nodes, leq))
    ensures forall j :: 0 <= j < |KahnOrder(nodes, leq)| ==>
              exists n :: n in nodes && n.id == KahnOrder(nodes, leq)[j] && n.id != ""
    ensures forall j, n, d ::
              (0 <= j < |KahnOrder(nodes, leq)| && n in nodes && n.id == KahnOrder(nodes, leq)[j]
               && d in n.dependsOn && Kept(n.id, d, Ids(nodes)))
              ==> d in KahnOrder(nodes, leq)[..j]
  {
    var order := KahnOrder(nodes, leq);
    GreedyIsTopological(Ids(nodes), EdgeSet(nodes), leq, []);
    GreedyStop(Ids(nodes), EdgeSet(nodes), leq, []);
    forall j | 0 <= j < |order| ensures exists n :: n in nodes && n.id == order[j] && n.id != "" {
      assert order[j] in Ids(nodes);
    }
    forall j, n, d | 0 <= j < |order| && n in nodes && n.id == order[j] && d in n.dependsOn && Kept(n.id, d, Ids(nodes))
      ensures d in order[..j]
    {
      assert (d, order[j]) in EdgeSet(nodes);
    }
  }

  /** The cycle test: the order is as long as the node list exactly when the identifiers are
      distinct and non-empty and the kept dependencies have no cycle. */
  lemma KahnOrderComplete(nodes: seq<TaskNode>, leq: (string, string) -> bool)
    requires TotalOrder(leq)
    ensures |KahnOrder(nodes, leq)| == |nodes| <==>
            Acyclic(EdgeSet(nodes)) && "" !in Ids(nodes)
            && forall i, j :: 0 <= i < j < |nodes| ==> nodes[i].id != nodes[j].id
    ensures Elements(KahnOrder(nodes, leq)) == Ids(nodes) <==> Acyclic(EdgeSet(nodes)) && "" !in Ids(nodes)
  {
    EdgesWithin(nodes);
    GreedyCompleteIffAcyclic(Ids(nodes), EdgeSet(nodes), leq);
    IdsSize(nodes);
  }

  lemma ValidIffWellFormed(graph: TaskGraph, leq: (string, string) -> bool)
    requires TotalOrder(leq)
    ensures ErrorsOf(graph, leq) == [] <==> WellFormed(graph)
  {
    var known := Ids(graph.nodes);
    IdsSize(graph.nodes);
    KahnOrderComplete(graph.nodes, leq);
    MembershipErrorsNone(graph, graph.nodes);
    DependencyErrorsNone(graph.nodes, known);
    var tail := if |KahnOrder(graph.nodes, leq)| != |graph.nodes| then [HasCycle] else [];
    assert |ErrorsOf(graph, leq)| == |HeaderErrors(graph)| + |MembershipErrors(graph, graph.nodes)|
        + |DependencyErrors(graph.nodes, known)| + |tail|;
    assert |HeaderErrors(graph)| == 0 <==> |known| == |graph.nodes| && graph.version >= 1 && !Blank(graph.baseRevision);
    assert "" in known <==> exists n :: n in graph.nodes && n.id == "";
  }

  /** Among all orders of the tasks that respect the kept dependencies, the reported one is
      the first in dictionary order. */
  lemma KahnOrderLeast(nodes: seq<TaskNode>, leq: (string, string) -> bool, other: seq<string>)
    requires TotalOrder(leq)
    requires Topological(other, Ids(nodes), EdgeSet(nodes)) && Elements(other) == Ids(nodes)
    ensures LexLeq(KahnOrder(nodes, leq), other, leq)
  {
    GreedyIsLeast(Ids(nodes), EdgeSet(nodes), leq, [], other);
  }

  ghost predicate HasTwin(n: TaskNode, nodes: seq<TaskNode>) {
    exists m :: m in nodes && m.id == n.id && Elements(m.dependsOn) == Elements(n.dependsOn)
  }

  /** Same tasks with the same sets of dependencies, in any arrangement. */
  ghost predicate Rearranged(a: seq<TaskNode>, b: seq<TaskNode>) {
    && (forall n {:trigger HasTwin(n, b)} :: n in a ==> HasTwin(n, b))
    && (forall n {:trigger HasTwin(n, a)} :: n in b ==> HasTwin(n, a))
  }

  lemma RearrangedHalf(a: seq<TaskNode>, b: seq<TaskNode>)
    requires forall n {:trigger HasTwin(n, b)} :: n in a ==> HasTwin(n, b)
    ensures Ids(a) <= Ids(b)
    ensures Ids(a) == Ids(b) ==> EdgeSet(a) <= EdgeSet(b)
  {
    forall v | v in Ids(a) ensures v in Ids(b) {
      var n :| n in a && n.id == v;
      assert HasTwin(n, b);
    }
    forall e | Ids(a) == Ids(b) && e in EdgeSet(a) ensures e in EdgeSet(b) {
      var n :| n in a && e.1 == n.id && e.0 in n.dependsOn;
      assert HasTwin(n, b);
      var m :| m in b && m.id == n.id && Elements(m.dependsOn) == Elements(n.dependsOn);
      assert e.0 in Elements(n.dependsOn);
      assert e.0 in m.dependsOn;
    }
  }

  /** Permuting the nodes or any dependency list does not change the order. */
  lemma KahnOrderForgetsArrangement(a: seq<TaskNode>, b: seq<TaskNode>, leq: (string, string) -> bool)
    requires TotalOrder(leq) && Rearranged(a, b)
    ensures KahnOrder(a, leq) == KahnOrder(b, leq)
  {
    RearrangedHalf(a, b);
    RearrangedHalf(b, a);
    assert Ids(a) == Ids(b);
    assert EdgeSet(a) == EdgeSet(b);
  }
}
