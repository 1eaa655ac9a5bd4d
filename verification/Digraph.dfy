/** Finite dependency multigraphs, shared by the task planner and the flow runner.
  *
  * A graph lists, for every node, the nodes it depends on (repetitions allowed), so
  * `d in g[i]` is an edge from the dependency `d` to its dependent `i`.
  */
module Digraph {

  type Graph = seq<seq<nat>>

  ghost predicate WellFormed(g: Graph) {
    forall i: nat, d: nat :: 0 <= i < |g| && d in g[i] ==> d < |g|
  }

  predicate Edge(g: Graph, d: nat, i: nat) {
    i < |g| && d in g[i]
  }

  /** A nonempty walk along edges, from dependency to dependent. */
  ghost predicate Path(g: Graph, p: seq<nat>) {
    && |p| > 0
    && (forall k :: 0 <= k < |p| ==> p[k] < |g|)
    && (forall k :: 0 < k < |p| ==> Edge(g, p[k - 1], p[k]))
  }

  ghost predicate PathBetween(g: Graph, p: seq<nat>, from: nat, to: nat) {
    Path(g, p) && p[0] == from && p[|p| - 1] == to
  }

  ghost predicate Reaches(g: Graph, from: nat, to: nat) {
    exists p :: PathBetween(g, p, from, to)
  }

  ghost predicate Cycle(g: Graph, p: seq<nat>) {
    Path(g, p) && |p| >= 2 && p[0] == p[|p| - 1]
  }

  ghost predicate Acyclic(g: Graph) {
    forall p :: !Cycle(g, p)
  }

  /** Some cycle leads to node i; i itself need not lie on one. */
  ghost predicate BehindCycle(g: Graph, i: nat) {
    exists c :: Cycle(g, c) && Reaches(g, c[0], i)
  }

  // ----- walks -----

  lemma SinglePath(g: Graph, i: nat)
    requires i < |g|
    ensures PathBetween(g, [i], i, i)
  {
  }

  lemma PathSuffix(g: Graph, p: seq<nat>, a: nat)
    requires Path(g, p) && a < |p|
    ensures PathBetween(g, p[a..], p[a], p[|p| - 1])
  {
    var q := p[a..];
    forall k | 0 < k < |q| ensures Edge(g, q[k - 1], q[k]) {
      assert q[k - 1] == p[a + k - 1] && q[k] == p[a + k];
    }
  }

  lemma PathPrefix(g: Graph, p: seq<nat>, b: nat)
    requires Path(g, p) && 0 < b <= |p|
    ensures PathBetween(g, p[..b], p[0], p[b - 1])
  {
  }

  lemma PathExtend(g: Graph, p: seq<nat>, from: nat, to: nat, next: nat)
    requires PathBetween(g, p, from, to) && Edge(g, to, next)
    ensures PathBetween(g, p + [next], from, next)
  {
    var q := p + [next];
    forall k | 0 < k < |q| ensures Edge(g, q[k - 1], q[k]) {
      if k < |p| {
        assert q[k - 1] == p[k - 1] && q[k] == p[k];
      }
    }
  }

  lemma PathPrepend(g: Graph, p: seq<nat>, d: nat)
    requires Path(g, p) && d < |g| && Edge(g, d, p[0])
    ensures PathBetween(g, [d] + p, d, p[|p| - 1])
  {
    var q := [d] + p;
    forall k | 0 < k < |q| ensures Edge(g, q[k - 1], q[k]) {
      assert q[k] == p[k - 1];
      if k > 1 {
        assert q[k - 1] == p[k - 2];
      }
    }
  }

  lemma PathJoin(g: Graph, p: seq<nat>, q: seq<nat>)
    requires Path(g, p) && Path(g, q) && p[|p| - 1] == q[0]
    ensures PathBetween(g, p + q[1..], p[0], q[|q| - 1])
  {
    var j := p + q[1..];
    forall k | 0 < k < |j| ensures Edge(g, j[k - 1], j[k]) {
      if k < |p| {
        assert Edge(g, p[k - 1], p[k]);
      } else {
        assert Edge(g, q[k - |p|], q[k - |p| + 1]);
      }
    }
  }

  lemma ReachesSelf(g: Graph, i: nat)
    requires i < |g|
    ensures Reaches(g, i, i)
  {
    SinglePath(g, i);
  }

  lemma ReachesStep(g: Graph, a: nat, b: nat, c: nat)
    requires Reaches(g, a, b) && Edge(g, b, c)
    ensures Reaches(g, a, c)
  {
    var p :| PathBetween(g, p, a, b);
    PathExtend(g, p, a, b, c);
  }

  /** The last edge of a walk to i: either the walk is trivial or it enters i from a dependency. */
  lemma ReachesLastEdge(g: Graph, a: nat, i: nat)
    requires Reaches(g, a, i)
    ensures a == i || exists d: nat :: Edge(g, d, i) && Reaches(g, a, d)
  {
    var p :| PathBetween(g, p, a, i);
    if |p| > 1 {
      PathPrefix(g, p, |p| - 1);
      var d := p[|p| - 2];
      assert Edge(g, p[|p| - 1 - 1], p[|p| - 1]);
      assert Edge(g, d, i) && PathBetween(g, p[..|p| - 1], a, d);
    }
  }

  // ----- pigeonhole -----

  lemma {:induction false} BoundedDistinct(p: seq<nat>, n: nat)
    requires forall k :: 0 <= k < |p| ==> p[k] < n
    requires forall a, b :: 0 <= a < b < |p| ==> p[a] != p[b]
    ensures |p| <= n
    decreases n
  {
    if p == [] {
    } else {
      assert p[0] < n;
      if k :| 0 <= k < |p| && p[k] == n - 1 {
        BoundedDistinct(p[..k] + p[k + 1..], n - 1);
      } else {
        BoundedDistinct(p, n - 1);
      }
    }
  }

  ghost predicate DependsInto(g: Graph, j: nat, nodes: set<nat>) {
    j < |g| && exists d: nat :: d in g[j] && d in nodes
  }

  /** A set of nodes in which every node has a dependency inside the set lies behind cycles. */
  lemma TrappedBehindCycle(g: Graph, trapped: set<nat>, i: nat)
    requires i in trapped
    requires forall j: nat {:trigger DependsInto(g, j, trapped)} :: j in trapped ==> DependsInto(g, j, trapped)
    ensures BehindCycle(g, i)
  {
    var p := WalkBack(g, trapped, i, |g|);
    if forall a, b :: 0 <= a < b < |p| ==> p[a] != p[b] {
      BoundedDistinct(p, |g|);
      assert false;
    }
    var a, b :| 0 <= a < b < |p| && p[a] == p[b];
    PathSuffix(g, p, a);
    PathPrefix(g, p[a..], b - a + 1);
    var c := p[a..][..b - a + 1];
    assert Cycle(g, c) && PathBetween(g, p[a..], c[0], i);
  }

  lemma {:induction false} WalkBack(g: Graph, trapped: set<nat>, i: nat, n: nat) returns (p: seq<nat>)
    requires i in trapped
    requires forall j: nat {:trigger DependsInto(g, j, trapped)} :: j in trapped ==> DependsInto(g, j, trapped)
    ensures Path(g, p) && |p| == n + 1 && p[|p| - 1] == i && p[0] in trapped
  {
    if n == 0 {
      assert DependsInto(g, i, trapped);
      p := [i];
    } else {
      var q := WalkBack(g, trapped, i, n - 1);
      assert DependsInto(g, q[0], trapped) && DependsInto(g, i, trapped);
      var d :| d in g[q[0]] && d in trapped;
      assert DependsInto(g, d, trapped);
      PathPrepend(g, q, d);
      p := [d] + q;
    }
  }

  // ----- layerings -----

  /** Every dependency sits in a strictly earlier layer. */
  ghost predicate Layering(g: Graph, layer: seq<nat>) {
    && |layer| == |g|
    && forall i: nat, d: nat :: 0 <= i < |g| && d in g[i] ==> d < |g| && layer[d] < layer[i]
  }

  /** A layering in which no node waits longer than it must: layer l + 1 is entered right after layer l. */
  ghost predicate TightLayering(g: Graph, layer: seq<nat>) {
    && Layering(g, layer)
    && forall i: nat {:trigger DependsOnLayer(g, layer, i, layer[i] - 1)} ::
         i < |g| && layer[i] > 0 ==> DependsOnLayer(g, layer, i, layer[i] - 1)
  }

  ghost predicate DependsOnLayer(g: Graph, layer: seq<int>, i: nat, l: int) {
    i < |g| && exists d: nat :: d in g[i] && d < |layer| && layer[d] == l
  }

  /** i ends a walk of w edges and none of more. */
  ghost predicate LongestWalkTo(g: Graph, i: nat, w: nat) {
    && (exists p :: Path(g, p) && p[|p| - 1] == i && |p| == w + 1)
    && (forall p :: Path(g, p) && p[|p| - 1] == i ==> |p| <= w + 1)
  }

  /** Going forward along edges makes the longest walk longer. */
  lemma LongestWalkGrows(g: Graph, a: nat, b: nat, v: nat, w: nat)
    requires Reaches(g, a, b) && LongestWalkTo(g, a, v) && LongestWalkTo(g, b, w)
    ensures a == b || v < w
  {
    var q :| PathBetween(g, q, a, b);
    var p :| Path(g, p) && p[|p| - 1] == a && |p| == v + 1;
    PathJoin(g, p, q);
    assert Path(g, p + q[1..]) && (p + q[1..])[|p + q[1..]| - 1] == b;
  }

  lemma {:induction false} LayersClimb(g: Graph, layer: seq<nat>, p: seq<nat>)
    requires Layering(g, layer) && Path(g, p)
    ensures layer[p[0]] + |p| - 1 <= layer[p[|p| - 1]]
  {
    if |p| > 1 {
      PathPrefix(g, p, |p| - 1);
      LayersClimb(g, layer, p[..|p| - 1]);
      assert Edge(g, p[|p| - 1 - 1], p[|p| - 1]);
    }
  }

  lemma LayeringAcyclic(g: Graph, layer: seq<nat>)
    requires Layering(g, layer)
    ensures Acyclic(g)
  {
    forall p ensures !Cycle(g, p) {
      if Cycle(g, p) {
        LayersClimb(g, layer, p);
      }
    }
  }

  lemma {:induction false} TightWalk(g: Graph, layer: seq<nat>, i: nat) returns (p: seq<nat>)
    requires TightLayering(g, layer) && i < |g|
    ensures Path(g, p) && p[|p| - 1] == i && |p| == layer[i] + 1
    decreases layer[i]
  {
    if layer[i] == 0 {
      p := [i];
    } else {
      assert DependsOnLayer(g, layer, i, layer[i] - 1);
      var d :| d in g[i] && d < |g| && layer[d] == layer[i] - 1;
      var q := TightWalk(g, layer, d);
      PathExtend(g, q, q[0], d, i);
      p := q + [i];
    }
  }

  /** In a tight layering a node's layer is the length of the longest walk that ends at it. */
  lemma TightIsLongest(g: Graph, layer: seq<nat>, i: nat)
    requires TightLayering(g, layer) && i < |g|
    ensures LongestWalkTo(g, i, layer[i])
  {
    var q := TightWalk(g, layer, i);
    forall p | Path(g, p) && p[|p| - 1] == i ensures |p| <= layer[i] + 1 {
      LayersClimb(g, layer, p);
    }
  }

  /** No layering places any node earlier than a tight one does. */
  lemma TightIsEarliest(g: Graph, layer: seq<nat>, other: seq<nat>, i: nat)
    requires TightLayering(g, layer) && Layering(g, other) && i < |g|
    ensures layer[i] <= other[i]
  {
    var p := TightWalk(g, layer, i);
    LayersClimb(g, other, p);
  }

  /** Tight layerings are unique. */
  lemma TightUnique(g: Graph, layer: seq<nat>, other: seq<nat>)
    requires TightLayering(g, layer) && TightLayering(g, other)
    ensures layer == other
  {
    forall i: nat | 0 <= i < |g| ensures layer[i] == other[i] {
      TightIsEarliest(g, layer, other, i);
      TightIsEarliest(g, other, layer, i);
    }
  }
}
