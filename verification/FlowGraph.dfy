/** Registration-time checks of a flow (flow.go: validate, detectCycle). */
module FlowGraph {
  import opened Common
  import opened Digraph
  import opened Kahn

  datatype Kind = Listener | Router

  /** A registered step. `bound` says its function is not nil. */
  datatype Node = Node(name: string, deps: seq<string>, start: bool, kind: Kind, bound: bool)

  datatype Validation =
    | Valid(index: map<string, nat>)
    | EmptyName
    | DuplicateStep(name: string)
    | StartDeps(name: string)
    | NilFunction(name: string)
    | NoStart
    | SelfDependency(name: string)
    | UnknownStep(name: string, dep: string)
    | HasCycle

  function Names(nodes: seq<Node>): (names: seq<string>)
    ensures |names| == |nodes|
    ensures forall i :: 0 <= i < |nodes| ==> names[i] == nodes[i].name
  {
    seq(|nodes|, i requires 0 <= i < |nodes| => nodes[i].name)
  }

  function Deps(nodes: seq<Node>): (deps: seq<seq<string>>)
    ensures |deps| == |nodes|
    ensures forall i :: 0 <= i < |nodes| ==> deps[i] == nodes[i].deps
  {
    seq(|nodes|, i requires 0 <= i < |nodes| => nodes[i].deps)
  }

  function StepGraph(nodes: seq<Node>): Graph {
    DepGraph(Names(nodes), Deps(nodes))
  }

  function Index(nodes: seq<Node>): map<string, nat> {
    map name | name in Names(nodes) :: IndexOf(Names(nodes), name)
  }

  predicate NodeOk(node: Node) {
    node.name != "" && (node.start ==> node.deps == []) && node.bound
  }

  predicate Known(nodes: seq<Node>, node: Node) {
    forall d :: d in node.deps ==> d in Names(nodes)
  }

  ghost predicate ValidFlow(nodes: seq<Node>) {
    && (forall i :: 0 <= i < |nodes| ==> NodeOk(nodes[i]))
    && Distinct(Names(nodes))
    && (exists i :: 0 <= i < |nodes| && nodes[i].deps == [])
    && (forall i :: 0 <= i < |nodes| ==> Known(nodes, nodes[i]))
    && Acyclic(StepGraph(nodes))
  }

  lemma RepeatedName(nodes: seq<Node>, i: nat, index: map<string, nat>)
    requires i < |nodes| && Indexes(Names(nodes), i, index) && nodes[i].name in index
    ensures !Distinct(Names(nodes))
  {
    assert Names(nodes)[index[nodes[i].name]] == Names(nodes)[i];
  }

  lemma NamesSoFar(nodes: seq<Node>, i: nat, index: map<string, nat>)
    requires i < |nodes| && Indexes(Names(nodes), i, index)
    ensures Distinct(Names(nodes)[..i]) && (nodes[i].name in index <==> nodes[i].name in Names(nodes)[..i])
  {
    IndexesDistinct(Names(nodes), i, index);
  }

  lemma NothingIndexed(nodes: seq<Node>)
    ensures Indexes(Names(nodes), 0, map[])
  {
  }

  /** What is wrong with node i itself, the name checks first. */
  predicate NodeFault(nodes: seq<Node>, i: nat, r: Validation)
    requires i < |nodes|
  {
    var n := nodes[i];
    var again := n.name in Names(nodes)[..i];
    match r
    case EmptyName => n.name == ""
    case DuplicateStep(name) => name == n.name != "" && again
    case StartDeps(name) => name == n.name != "" && !again && n.start && n.deps != []
    case NilFunction(name) => name == n.name != "" && !again && (n.start ==> n.deps == []) && !n.bound
    case _ => false
  }

  /** Node i is the first node at fault. */
  ghost predicate FirstFault(nodes: seq<Node>, i: nat, r: Validation) {
    i < |nodes| && (forall k :: 0 <= k < i ==> NodeOk(nodes[k])) && Distinct(Names(nodes)[..i]) && NodeFault(nodes, i, r)
  }

  /** The d-th dependency of node i is the first, in registration order, that is its own step or unknown. */
  ghost predicate FirstBadDep(nodes: seq<Node>, i: nat, d: nat, r: Validation) {
    && i < |nodes| && d < |nodes[i].deps|
    && (forall k :: 0 <= k < i ==> DepsOk(nodes, nodes[k].name, nodes[k].deps))
    && DepsOk(nodes, nodes[i].name, nodes[i].deps[..d])
    && var dep := nodes[i].deps[d];
       if dep == nodes[i].name then r == SelfDependency(nodes[i].name)
       else dep !in Names(nodes) && r == UnknownStep(nodes[i].name, dep)
  }

  predicate DepsOk(nodes: seq<Node>, name: string, deps: seq<string>) {
    forall d :: d in deps ==> d in Names(nodes) && d != name
  }

  /** The first pass: names, functions and start marks. */
  method CheckNodes(nodes: seq<Node>) returns (r: Validation)
    ensures r.Valid? <==> (forall i :: 0 <= i < |nodes| ==> NodeOk(nodes[i])) && Distinct(Names(nodes))
                          && exists i :: 0 <= i < |nodes| && nodes[i].deps == []
    ensures r.Valid? ==> r.index == Index(nodes)
    ensures r.NoStart? ==> (forall i :: 0 <= i < |nodes| ==> NodeOk(nodes[i]) && nodes[i].deps != []) && Distinct(Names(nodes))
    ensures r.Valid? || r.NoStart? || exists i: nat :: FirstFault(nodes, i, r)
    ensures !r.SelfDependency? && !r.UnknownStep? && !r.HasCycle?
  {
    hide Indexes;
    var index: map<string, nat> := map[];
    var hasStart := false;
    var names := Names(nodes);
    NothingIndexed(nodes);
    for i := 0 to |nodes|
      invariant forall k :: 0 <= k < i ==> NodeOk(nodes[k])
      invariant Indexes(names, i, index)
      invariant hasStart <==> exists k :: 0 <= k < i && nodes[k].deps == []
    {
      var n := nodes[i];
      assert names[i] == n.name;
      NamesSoFar(nodes, i, index);
      if n.name == "" {
        assert FirstFault(nodes, i, EmptyName);
        return EmptyName;
      }
      if n.name in index {
        RepeatedName(nodes, i, index);
        assert FirstFault(nodes, i, DuplicateStep(n.name));
        return DuplicateStep(n.name);
      }
      IndexesExtend(names, i, index);
      index := index[n.name := i];
      if n.start && |n.deps| > 0 {
        assert FirstFault(nodes, i, StartDeps(n.name));
        return StartDeps(n.name);
      }
      if !n.bound {
        assert FirstFault(nodes, i, NilFunction(n.name));
        return NilFunction(n.name);
      }
      if |n.deps| == 0 {
        hasStart := true;
      }
    }
    IndexesDistinct(names, |nodes|, index);
    if !hasStart {
      return NoStart;
    }
    return Valid(index);
  }

  lemma SelfCycles(nodes: seq<Node>, i: nat)
    requires i < |nodes| && Distinct(Names(nodes)) && nodes[i].name in nodes[i].deps
    ensures !Acyclic(StepGraph(nodes))
  {
    var names := Names(nodes);
    assert names[i] == nodes[i].name;
    var k :| 0 <= k < |nodes[i].deps| && nodes[i].deps[k] == names[i];
    InListContains(names, nodes[i].deps, k);
    assert IndexOf(names, names[i]) == i;
    assert Cycle(StepGraph(nodes), [i, i]);
  }

  /** The verdict names the first fault, in the order the passes look. */
  ghost predicate Explains(nodes: seq<Node>, r: Validation) {
    match r
    case Valid(_) => true
    case NoStart =>
      (forall i :: 0 <= i < |nodes| ==> NodeOk(nodes[i]) && nodes[i].deps != []) && Distinct(Names(nodes))
    case SelfDependency(_) => exists i: nat, d: nat :: FirstBadDep(nodes, i, d, r)
    case UnknownStep(_, _) => exists i: nat, d: nat :: FirstBadDep(nodes, i, d, r)
    case HasCycle =>
      !Acyclic(StepGraph(nodes)) && forall i :: 0 <= i < |nodes| ==> DepsOk(nodes, nodes[i].name, nodes[i].deps)
    case _ => exists i: nat :: FirstFault(nodes, i, r)
  }

  lemma BadDepInvalid(nodes: seq<Node>, i: nat, d: nat, r: Validation)
    requires Distinct(Names(nodes)) && FirstBadDep(nodes, i, d, r)
    ensures !ValidFlow(nodes)
  {
    hide Acyclic;
    if nodes[i].deps[d] == nodes[i].name {
      SelfCycles(nodes, i);
    } else {
      assert nodes[i].deps[d] in nodes[i].deps;
    }
  }

  /** The second pass: every dependency is another registered step. */
  method CheckDeps(nodes: seq<Node>, index: map<string, nat>) returns (bad: Option<Validation>)
    requires Distinct(Names(nodes)) && index == Index(nodes)
    ensures bad.None? ==> forall i :: 0 <= i < |nodes| ==> DepsOk(nodes, nodes[i].name, nodes[i].deps)
    ensures bad.Some? ==> !ValidFlow(nodes) && (bad.value.SelfDependency? || bad.value.UnknownStep?)
    ensures bad.Some? ==> exists i: nat, d: nat :: FirstBadDep(nodes, i, d, bad.value)
  {
    hide ValidFlow, Distinct;
    for i := 0 to |nodes|
      invariant forall k :: 0 <= k < i ==> DepsOk(nodes, nodes[k].name, nodes[k].deps)
    {
      var n := nodes[i];
      for k := 0 to |n.deps|
        invariant DepsOk(nodes, n.name, n.deps[..k])
      {
        var d := n.deps[k];
        if d == n.name {
          BadDepInvalid(nodes, i, k, SelfDependency(n.name));
          return Some(SelfDependency(n.name));
        }
        if d !in index {
          BadDepInvalid(nodes, i, k, UnknownStep(n.name, d));
          return Some(UnknownStep(n.name, d));
        }
        assert n.deps[..k + 1] == n.deps[..k] + [d];
      }
      assert n.deps[..|n.deps|] == n.deps;
    }
    bad := None;
  }

  lemma AllKnown(nodes: seq<Node>)
    requires forall i :: 0 <= i < |nodes| ==> DepsOk(nodes, nodes[i].name, nodes[i].deps)
    ensures forall i :: 0 <= i < |nodes| ==> Known(nodes, nodes[i]) && nodes[i].name !in nodes[i].deps
  {
  }

  /** Accepted exactly when well formed and acyclic; otherwise the first fault, in the order the passes look. */
  method Validate(nodes: seq<Node>) returns (r: Validation)
    ensures r.Valid? <==> ValidFlow(nodes)
    ensures r.Valid? ==> r.index == Index(nodes)
    ensures Explains(nodes, r)
  {
    hide NodeFault, FirstFault, FirstBadDep, DepsOk, Acyclic;
    r := CheckNodes(nodes);
    if !r.Valid? {
      return;
    }
    var index := r.index;
    var bad := CheckDeps(nodes, index);
    if bad.Some? {
      return bad.value;
    }
    AllKnown(nodes);
    var acyclic := DetectCycle(nodes, index);
    if !acyclic {
      return HasCycle;
    }
  }

  method DetectCycle(nodes: seq<Node>, index: map<string, nat>) returns (acyclic: bool)
    requires index == Index(nodes)
    requires forall i :: 0 <= i < |nodes| ==> nodes[i].name !in nodes[i].deps
    ensures acyclic <==> Acyclic(StepGraph(nodes))
  {
    hide Acyclic, Queued, Topological, DependentsOf, Open, StepGraph;
    ghost var g := StepGraph(nodes);
    var n := |nodes|;
    var indegree, adjacent := BuildTables(nodes, index);
    var ready := FirstReady(indegree);
    var seen := 0;
    ghost var order: seq<nat> := [];
    assert Members(order) == {};
    QueueRoots(g, ready);
    while |ready| > 0
      invariant forall j: nat :: j < n ==> indegree[j] == Open(g[j], Members(order))
      invariant Adjacency(g, adjacent[..])
      invariant Queued(g, order, ready) && Topological(g, order) && seen == |order| <= n
      decreases n - |order|
    {
      var i := ready[0];
      HeadOpen(g, order, ready);
      var next := ReleaseDependents(g, Members(order), [i], indegree, adjacent);
      assert Members(order) + Members([i]) == Members(order + [i]);
      Dequeue(g, order, ready, next);
      ready := ready[1..] + next;
      seen := seen + 1;
      order := order + [i];
    }
    if seen == n {
      AllOrderedAcyclic(g, order);
    } else {
      StuckCyclic(g, order);
    }
    return seen == n;
  }

  method BuildTables(nodes: seq<Node>, index: map<string, nat>)
    returns (indegree: array<int>, adjacent: array<seq<nat>>)
    requires index == Index(nodes)
    requires forall i :: 0 <= i < |nodes| ==> nodes[i].name !in nodes[i].deps
    ensures fresh(indegree) && fresh(adjacent) && indegree.Length == |nodes| == |StepGraph(nodes)| && WellFormed(StepGraph(nodes))
    ensures Adjacency(StepGraph(nodes), adjacent[..])
    ensures forall j: nat :: j < |nodes| ==> indegree[j] == Open(StepGraph(nodes)[j], {})
  {
    var self, at;
    indegree, adjacent, self, at := BuildEdges(Names(nodes), Deps(nodes), index);
    if self {
      assert false;
    }
    forall j: nat | j < |nodes| ensures indegree[j] == Open(StepGraph(nodes)[j], {}) {
      OpenNone(StepGraph(nodes)[j]);
    }
  }

  /** Every node of `order` comes after all its dependencies. */
  ghost predicate Topological(g: Graph, order: seq<nat>) {
    && Distinct(order)
    && (forall i: nat :: i in order ==> i < |g|)
    && forall k: nat :: k < |order| ==> DependsWithin(g, order[k], order[..k])
  }

  ghost predicate DependsWithin(g: Graph, i: nat, earlier: seq<nat>) {
    i < |g| && forall d: nat :: d in g[i] ==> d in earlier
  }

  /** The queue holds the nodes outside `order` all of whose dependencies are in it. */
  ghost predicate Queued(g: Graph, order: seq<nat>, ready: seq<nat>) {
    && Distinct(ready)
    && forall j: nat {:trigger j in ready} :: j in ready <==> j < |g| && j !in order && Open(g[j], Members(order)) == 0
  }

  lemma QueueRoots(g: Graph, ready: seq<nat>)
    requires Ascending(ready)
    requires forall j: nat {:trigger j in ready} :: j in ready <==> j < |g| && Open(g[j], {}) == 0
    ensures Queued(g, [], ready) && Topological(g, [])
  {
    assert Members([]) == {};
  }

  lemma HeadOpen(g: Graph, order: seq<nat>, ready: seq<nat>)
    requires Queued(g, order, ready) && |ready| > 0
    ensures ready[0] < |g| && ready[0] !in order
  {
    assert ready[0] in ready;
  }

  lemma Dequeue(g: Graph, order: seq<nat>, ready: seq<nat>, next: seq<nat>)
    requires Queued(g, order, ready) && Topological(g, order) && |ready| > 0 && Distinct(next)
    requires forall j: nat {:trigger j in next} ::
               j in next <==> j < |g| && Open(g[j], Members(order)) > 0 && Open(g[j], Members(order + [ready[0]])) == 0
    ensures Queued(g, order + [ready[0]], ready[1..] + next) && Topological(g, order + [ready[0]])
    ensures |order| < |g|
  {
    var i := ready[0];
    var order' := order + [i];
    assert i in ready;
    forall k: nat | k < |order'| ensures DependsWithin(g, order'[k], order'[..k]) {
      assert order'[..k] == order[..k];
      assert order[..|order|] == order;
      if k < |order| {
        assert DependsWithin(g, order[k], order[..k]);
      }
    }
    BoundedDistinct(order', |g|);
    DequeueReady(g, order, ready, next);
  }

  lemma DequeueReady(g: Graph, order: seq<nat>, ready: seq<nat>, next: seq<nat>)
    requires Queued(g, order, ready) && Topological(g, order) && |ready| > 0 && Distinct(next)
    requires forall j: nat {:trigger j in next} ::
               j in next <==> j < |g| && Open(g[j], Members(order)) > 0 && Open(g[j], Members(order + [ready[0]])) == 0
    ensures Queued(g, order + [ready[0]], ready[1..] + next)
  {
    var i := ready[0];
    var order', ready' := order + [i], ready[1..] + next;
    assert ready == [i] + ready[1..];
    forall j: nat ensures j in ready' <==> j < |g| && j !in order' && Open(g[j], Members(order')) == 0 {
      assert j in ready[1..] <==> j in ready && j != i;
      assert j in order' <==> j in order || j == i;
      assert j in ready' <==> j in ready[1..] || j in next;
      if j < |g| {
        OpenMore(g[j], Members(order), Members(order'));
        OrderedClosed(g, order, j);
        if Open(g[j], Members(order)) == 0 {
          assert j !in next;
        } else {
          assert j !in ready;
        }
      }
    }
    forall a, b | 0 <= a < b < |ready'| ensures ready'[a] != ready'[b] {
      if a < |ready[1..]| <= b {
        assert ready'[a] in ready && ready'[b] in next;
      }
    }
  }

  lemma OrderedClosed(g: Graph, order: seq<nat>, j: nat)
    requires Topological(g, order) && j < |g|
    ensures j in order ==> Open(g[j], Members(order)) == 0
  {
    if j in order {
      var k :| 0 <= k < |order| && order[k] == j;
      assert DependsWithin(g, order[k], order[..k]);
    }
  }

  lemma AllOrderedAcyclic(g: Graph, order: seq<nat>)
    requires Topological(g, order) && |order| == |g|
    ensures Acyclic(g)
  {
    forall i: nat | i < |g| ensures i in order {
      if i !in order {
        BoundedDistinct(order + [i], |g|);
      }
    }
    var layer := seq(|g|, i requires 0 <= i < |g| => IndexOf(order, i));
    forall i: nat, d: nat {:trigger d in g[i]} | i < |g| && d in g[i] ensures d < |g| && layer[d] < layer[i] {
      assert DependsWithin(g, order[layer[i]], order[..layer[i]]);
      assert d in order[..layer[i]];
    }
    LayeringAcyclic(g, layer);
  }

  lemma StuckCyclic(g: Graph, order: seq<nat>)
    requires WellFormed(g) && Queued(g, order, []) && Topological(g, order) && |order| < |g|
    ensures !Acyclic(g)
  {
    var trapped := set j: nat | j < |g| && j !in order;
    Crowded(order, |g|);
    var i: nat :| i < |g| && i !in order;
    var ready: seq<nat> := [];
    forall j: nat {:trigger DependsInto(g, j, trapped)} | j in trapped ensures DependsInto(g, j, trapped) {
      assert j !in ready;
      var d :| d in g[j] && d !in Members(order);
      assert d in trapped;
    }
    TrappedBehindCycle(g, trapped, i);
  }

  /** Fewer than n entries cannot cover all numbers below n. */
  lemma Crowded(order: seq<nat>, n: nat)
    requires |order| < n
    ensures exists i: nat :: i < n && i !in order
  {
    if forall i: nat :: i < n ==> i in order {
      var at := seq(n, i requires 0 <= i < n => IndexOf(order, i));
      forall a, b | 0 <= a < b < n ensures at[a] != at[b] {
        assert order[at[a]] == a && order[at[b]] == b;
      }
      BoundedDistinct(at, |order|);
    }
  }
}
