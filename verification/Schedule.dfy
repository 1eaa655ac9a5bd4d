/** The wave planner (schedule.go): Kahn's algorithm over Task.Context. */
module Schedule {
  import opened Digraph
  import opened Kahn

  /** The identity of a task pointer. */
  type TaskRef = nat

  datatype PlanResult =
    | Plan(waves: seq<seq<nat>>)
    | DuplicateTask(index: nat)
    | SelfDependency(index: nat)
    | DependsOnCycle(index: nat)

  // ----- what a plan is -----

  /** The waves, in order: who is in each, and in which order. */
  ghost predicate CorrectPlan(g: Graph, waves: seq<seq<nat>>) {
    && (forall w: nat, i: nat :: 0 <= w < |waves| && i in waves[w] ==> i < |g| && LongestWalkTo(g, i, w))
    && (forall i: nat :: i < |g| ==> InSomeWave(waves, i))
    && (forall w :: 0 <= w < |waves| ==> waves[w] != [] && Distinct(waves[w]))
    && WavesOrdered(g, waves)
  }

  ghost predicate InSomeWave(waves: seq<seq<nat>>, i: nat) {
    exists w :: 0 <= w < |waves| && i in waves[w]
  }

  ghost predicate WavesOrdered(g: Graph, waves: seq<seq<nat>>) {
    && (|waves| > 0 ==> Ascending(waves[0]))
    && forall w :: 0 < w < |waves| ==> OrderedAfter(g, waves[w - 1], waves[w])
  }

  // ----- the phases of planWaves -----

  method BuildIndex(tasks: seq<TaskRef>) returns (index: map<TaskRef, nat>, dup: bool, at: nat)
    ensures dup ==> at < |tasks| && tasks[at] in tasks[..at] && Distinct(tasks[..at])
    ensures !dup ==> Distinct(tasks) && index == map t | t in tasks :: IndexOf(tasks, t)
  {
    index, dup, at := map[], false, 0;
    while at < |tasks|
      invariant Indexes(tasks, at, index)
    {
      if tasks[at] in index {
        IndexesDistinct(tasks, at, index);
        dup := true;
        return;
      }
      index := index[tasks[at] := at];
      at := at + 1;
    }
    IndexesDistinct(tasks, at, index);
  }

  ghost predicate Recorded(wave: seq<nat>, w: nat, waveOf: seq<int>) {
    forall i: nat :: i in wave ==> i < |waveOf| && waveOf[i] == w
  }

  /** `waveOf` records the waves; it is -1 for a task no wave holds yet. */
  ghost predicate Records(n: nat, waves: seq<seq<nat>>, waveOf: seq<int>) {
    && |waveOf| == n
    && (forall i: nat :: i < n ==> -1 <= waveOf[i] < |waves|)
    && (forall w: nat :: w < |waves| ==> Recorded(waves[w], w, waveOf))
    && (forall i: nat :: i < n && waveOf[i] >= 0 ==> i in waves[waveOf[i]])
    && (forall w :: 0 <= w < |waves| ==> waves[w] != [] && Distinct(waves[w]))
  }

  /** The tasks placed so far are closed under dependencies, and none waits longer than it must. */
  ghost predicate Placed(g: Graph, waveOf: seq<int>) {
    && |waveOf| == |g|
    && (forall i: nat, d: nat {:trigger d in g[i]} :: i < |g| && waveOf[i] >= 0 && d in g[i] ==> d < |g| && 0 <= waveOf[d] < waveOf[i])
    && (forall i: nat {:trigger DependsOnLayer(g, waveOf, i, waveOf[i] - 1)} ::
          i < |g| && waveOf[i] > 0 ==> DependsOnLayer(g, waveOf, i, waveOf[i] - 1))
  }

  /** The tasks of the next wave. */
  ghost predicate Ready(g: Graph, waves: seq<seq<nat>>, waveOf: seq<int>, ready: seq<nat>) {
    && |waveOf| == |g|
    && Distinct(ready)
    && (forall j: nat {:trigger j in ready} :: j in ready <==> j < |g| && waveOf[j] == -1 && Open(g[j], ClosedSet(waveOf)) == 0)
    && (if waves == [] then Ascending(ready)
        else OrderedAfter(g, waves[|waves| - 1], ready)
             && forall j: nat :: j in ready ==> DependsOnLayer(g, waveOf, j, |waves| - 1))
  }

  ghost function ClosedSet(waveOf: seq<int>): set<nat> {
    set i: nat | i < |waveOf| && waveOf[i] != -1
  }

  /** `waveOf` with every task of `wave` assigned to w. */
  ghost predicate Assigned(was: seq<int>, wave: seq<nat>, w: int, waveOf: seq<int>) {
    && |was| == |waveOf|
    && forall i: nat :: 0 <= i < |was| ==> waveOf[i] == if i in wave then w else was[i]
  }

  lemma AssignedClosed(was: seq<int>, wave: seq<nat>, w: nat, waveOf: seq<int>)
    requires Assigned(was, wave, w, waveOf) && forall i: nat :: i in wave ==> i < |was|
    ensures ClosedSet(waveOf) == ClosedSet(was) + Members(wave)
  {
  }

  lemma RecordWave(n: nat, waves: seq<seq<nat>>, was: seq<int>, wave: seq<nat>, waveOf: seq<int>)
    requires Records(n, waves, was) && wave != [] && Distinct(wave)
    requires forall i: nat :: i in wave ==> i < n && was[i] == -1
    requires Assigned(was, wave, |waves|, waveOf)
    ensures Records(n, waves + [wave], waveOf)
  {
    var waves' := waves + [wave];
    forall w: nat | w < |waves'| ensures Recorded(waves'[w], w, waveOf) {
      assert w < |waves| ==> Recorded(waves[w], w, was);
    }
    forall i: nat | i < n && waveOf[i] >= 0 ensures i in waves'[waveOf[i]] {
      if i !in wave {
        assert i in waves[was[i]];
      }
    }
  }

  lemma PlaceWave(g: Graph, w: nat, was: seq<int>, wave: seq<nat>, waveOf: seq<int>)
    requires WellFormed(g) && Placed(g, was) && forall i: nat :: i < |g| ==> -1 <= was[i] < w
    requires forall j: nat :: j in wave ==> j < |g| && was[j] == -1 && Open(g[j], ClosedSet(was)) == 0
    requires w > 0 ==> forall j: nat :: j in wave ==> DependsOnLayer(g, was, j, w - 1)
    requires Assigned(was, wave, w, waveOf)
    ensures Placed(g, waveOf)
  {
    forall i: nat, d: nat {:trigger d in g[i]} | i < |g| && waveOf[i] >= 0 && d in g[i] ensures d < |g| && 0 <= waveOf[d] < waveOf[i] {
      if i in wave {
        assert d in ClosedSet(was);
      }
    }
    forall i: nat | i < |g| && waveOf[i] > 0 ensures DependsOnLayer(g, waveOf, i, waveOf[i] - 1) {
      assert DependsOnLayer(g, was, i, waveOf[i] - 1);
      var d :| d in g[i] && d < |was| && was[d] == waveOf[i] - 1;
      assert waveOf[d] == waveOf[i] - 1;
    }
  }

  lemma PlacedClosed(g: Graph, waveOf: seq<int>, j: nat)
    requires Placed(g, waveOf) && j < |g|
    ensures waveOf[j] >= 0 ==> Open(g[j], ClosedSet(waveOf)) == 0
  {
    if waveOf[j] >= 0 {
      forall d: nat | d in g[j] ensures d in ClosedSet(waveOf) {
      }
    }
  }

  lemma NextReady(g: Graph, waves: seq<seq<nat>>, was: seq<int>, wave: seq<nat>, waveOf: seq<int>, next: seq<nat>)
    requires WellFormed(g) && Placed(g, was) && Ready(g, waves, was, wave)
    requires forall i: nat :: i < |g| ==> was[i] >= -1
    requires Assigned(was, wave, |waves|, waveOf)
    requires Distinct(next) && OrderedAfter(g, wave, next)
    requires forall j: nat {:trigger j in next} :: j in next <==> j < |g| && Open(g[j], ClosedSet(was)) > 0 && Open(g[j], ClosedSet(waveOf)) == 0
    ensures Ready(g, waves + [wave], waveOf, next)
  {
    hide OrderedAfter, Placed;
    AssignedClosed(was, wave, |waves|, waveOf);
    forall j: nat ensures j in next <==> j < |g| && waveOf[j] == -1 && Open(g[j], ClosedSet(waveOf)) == 0 {
      if j < |g| {
        StillUnplaced(g, was, wave, j);
      }
    }
    forall j: nat | j in next ensures DependsOnLayer(g, waveOf, j, |waves|) {
      JustUnlocked(g, was, wave, |waves|, waveOf, j);
    }
  }

  lemma StillUnplaced(g: Graph, was: seq<int>, wave: seq<nat>, j: nat)
    requires Placed(g, was) && j < |g| && was[j] >= -1
    requires j in wave <==> j < |g| && was[j] == -1 && Open(g[j], ClosedSet(was)) == 0
    ensures Open(g[j], ClosedSet(was)) > 0 <==> j !in wave && was[j] == -1
  {
    PlacedClosed(g, was, j);
  }

  lemma JustUnlocked(g: Graph, was: seq<int>, wave: seq<nat>, w: nat, waveOf: seq<int>, j: nat)
    requires j < |g| && |was| == |g| && Assigned(was, wave, w, waveOf)
    requires Open(g[j], ClosedSet(was)) > 0 && Open(g[j], ClosedSet(waveOf)) == 0
    ensures DependsOnLayer(g, waveOf, j, w)
  {
    var d :| d in g[j] && d !in ClosedSet(was);
    assert d in ClosedSet(waveOf);
    assert waveOf[d] == w;
  }

  /** One wave later the planner's invariant holds again, with more tasks placed. */
  lemma Advance(g: Graph, waves: seq<seq<nat>>, was: seq<int>, wave: seq<nat>, waveOf: seq<int>, next: seq<nat>)
    requires WellFormed(g) && Records(|g|, waves, was) && Placed(g, was) && WavesOrdered(g, waves)
    requires Ready(g, waves, was, wave) && wave != [] && Assigned(was, wave, |waves|, waveOf)
    requires Distinct(next) && OrderedAfter(g, wave, next)
    requires forall j: nat {:trigger j in next} ::
               j in next <==> j < |g| && Open(g[j], ClosedSet(was)) > 0 && Open(g[j], ClosedSet(waveOf)) == 0
    ensures Records(|g|, waves + [wave], waveOf) && Placed(g, waveOf) && WavesOrdered(g, waves + [wave])
    ensures Ready(g, waves + [wave], waveOf, next)
    ensures ClosedSet(was) < ClosedSet(waveOf) <= Below(|g|)
  {
    hide Placed, OrderedAfter, Distinct, DependsOnLayer, Open;
    RecordWave(|g|, waves, was, wave, waveOf);
    PlaceWave(g, |waves|, was, wave, waveOf);
    NextReady(g, waves, was, wave, waveOf, next);
    AssignedClosed(was, wave, |waves|, waveOf);
    assert wave[0] in wave && wave[0] !in ClosedSet(was);
  }

  lemma NothingPlaced(g: Graph, waveOf: seq<int>, ready: seq<nat>)
    requires |waveOf| == |g| && (forall i: nat :: i < |g| ==> waveOf[i] == -1) && Ascending(ready)
    requires forall j: nat {:trigger j in ready} :: j in ready <==> j < |g| && Open(g[j], {}) == 0
    ensures Records(|g|, [], waveOf) && Placed(g, waveOf) && WavesOrdered(g, []) && Ready(g, [], waveOf, ready)
  {
    assert ClosedSet(waveOf) == {};
  }

  /** waveOf[i] = w for every i of the wave. */
  method MarkWave(wave: seq<nat>, w: int, waveOf: array<int>)
    requires forall i: nat :: i in wave ==> i < waveOf.Length
    modifies waveOf
    ensures Assigned(old(waveOf[..]), wave, w, waveOf[..])
  {
    var k := 0;
    while k < |wave|
      invariant k <= |wave|
      invariant Assigned(old(waveOf[..]), wave[..k], w, waveOf[..])
    {
      assert wave[k] in wave;
      waveOf[wave[k]] := w;
      k := k + 1;
    }
    assert wave[..k] == wave;
  }

  method AssignWaves(ghost g: Graph, indegree: array<int>, adjacent: array<seq<nat>>)
    returns (waves: seq<seq<nat>>, waveOf: array<int>)
    requires WellFormed(g) && Encodes(g, indegree[..], adjacent[..])
    modifies indegree
    ensures fresh(waveOf) && Records(|g|, waves, waveOf[..]) && Placed(g, waveOf[..]) && WavesOrdered(g, waves)
    ensures forall i: nat {:trigger Open(g[i], ClosedSet(waveOf[..]))} :: i < |g| && waveOf[i] == -1 ==> Open(g[i], ClosedSet(waveOf[..])) > 0
  {
    hide Placed, Records, WavesOrdered, OrderedAfter;
    var n := indegree.Length;
    waveOf := new int[n](_ => -1);
    waves := [];
    var ready := FirstReady(indegree);
    assert ClosedSet(waveOf[..]) == {};
    forall j: nat | j < n ensures indegree[j] == Open(g[j], {}) {
      OpenNone(g[j]);
    }
    NothingPlaced(g, waveOf[..], ready);
    while |ready| > 0
      invariant fresh(waveOf) && waveOf.Length == n
      invariant Records(n, waves, waveOf[..]) && Placed(g, waveOf[..]) && WavesOrdered(g, waves)
      invariant Ready(g, waves, waveOf[..], ready)
      invariant forall j: nat :: 0 <= j < n ==> indegree[j] == Open(g[j], ClosedSet(waveOf[..]))
      decreases Below(n) - ClosedSet(waveOf[..])
    {
      var wave := ready;
      ghost var was := waveOf[..];
      MarkWave(wave, |waves|, waveOf);
      AssignedClosed(was, wave, |waves|, waveOf[..]);
      var next := ReleaseDependents(g, ClosedSet(was), wave, indegree, adjacent);
      Advance(g, waves, was, wave, waveOf[..], next);
      waves := waves + [wave];
      ready := next;
    }
    NoneReady(g, waves, waveOf[..]);
  }

  lemma NoneReady(g: Graph, waves: seq<seq<nat>>, waveOf: seq<int>)
    requires Ready(g, waves, waveOf, [])
    ensures forall i: nat {:trigger Open(g[i], ClosedSet(waveOf))} :: i < |g| && waveOf[i] == -1 ==> Open(g[i], ClosedSet(waveOf)) > 0
  {
    forall i: nat | i < |g| && waveOf[i] == -1 ensures Open(g[i], ClosedSet(waveOf)) > 0 {
      var ready: seq<nat> := [];
      assert i !in ready;
    }
  }

  // ----- planWaves -----

  method PlanWaves(tasks: seq<TaskRef>, contexts: seq<seq<TaskRef>>) returns (r: PlanResult)
    requires |contexts| == |tasks|
    ensures r.Plan? <==> Distinct(tasks) && Acyclic(DepGraph(tasks, contexts))
    ensures r.Plan? ==> CorrectPlan(DepGraph(tasks, contexts), r.waves)
    ensures r.DuplicateTask? ==> r.index < |tasks| && tasks[r.index] in tasks[..r.index] && Distinct(tasks[..r.index])
    ensures r.SelfDependency? ==> Distinct(tasks) && r.index < |tasks| && r.index in DepGraph(tasks, contexts)[r.index]
    ensures r.SelfDependency? ==> forall x: nat :: 0 <= x < r.index ==> x !in DepGraph(tasks, contexts)[x]
    ensures r.DependsOnCycle? ==> Distinct(tasks) && r.index < |tasks| && BehindCycle(DepGraph(tasks, contexts), r.index)
    ensures r.DependsOnCycle? ==> forall x: nat :: 0 <= x < r.index ==> !BehindCycle(DepGraph(tasks, contexts), x)
  {
    ghost var g := DepGraph(tasks, contexts);
    if |tasks| == 0 {
      EmptyAcyclic(g);
      return Plan([]);
    }
    var index, dup, at := BuildIndex(tasks);
    if dup {
      return DuplicateTask(at);
    }
    var indegree, adjacent, self, selfAt := BuildEdges(tasks, contexts, index);
    if self {
      SelfCycle(g, selfAt);
      return SelfDependency(selfAt);
    }
    var waves, waveOf := AssignWaves(g, indegree, adjacent);
    var i := 0;
    while i < |tasks|
      invariant i <= |tasks|
      invariant forall x: nat :: 0 <= x < i ==> waveOf[x] != -1
    {
      if waveOf[i] == -1 {
        UnplacedBehindCycle(g, waveOf[..], i);
        return DependsOnCycle(i);
      }
      i := i + 1;
    }
    AllPlacedCorrect(g, waves, waveOf[..]);
    return Plan(waves);
  }

  lemma EmptyAcyclic(g: Graph)
    requires g == []
    ensures Acyclic(g) && CorrectPlan(g, [])
  {
  }

  lemma SelfCycle(g: Graph, i: nat)
    requires i < |g| && i in g[i]
    ensures !Acyclic(g)
  {
    assert Cycle(g, [i, i]);
  }

  /** A task no wave holds lies behind a cycle; the tasks the waves hold do not. */
  lemma UnplacedBehindCycle(g: Graph, waveOf: seq<int>, i: nat)
    requires WellFormed(g) && Placed(g, waveOf) && i < |g| && waveOf[i] == -1
    requires forall j: nat {:trigger Open(g[j], ClosedSet(waveOf))} :: j < |g| && waveOf[j] == -1 ==> Open(g[j], ClosedSet(waveOf)) > 0
    ensures BehindCycle(g, i) && !Acyclic(g)
    ensures forall x: nat :: 0 <= x < |g| && waveOf[x] >= 0 ==> !BehindCycle(g, x)
  {
    var trapped := set j: nat | j < |g| && waveOf[j] == -1;
    forall j: nat {:trigger DependsInto(g, j, trapped)} | j in trapped ensures DependsInto(g, j, trapped) {
      assert Open(g[j], ClosedSet(waveOf)) > 0;
      var d :| d in g[j] && d !in ClosedSet(waveOf);
      assert d in trapped;
    }
    TrappedBehindCycle(g, trapped, i);
    forall x: nat | 0 <= x < |g| && waveOf[x] >= 0 ensures !BehindCycle(g, x) {
      if BehindCycle(g, x) {
        var c :| Cycle(g, c) && Reaches(g, c[0], x);
        var p :| PathBetween(g, p, c[0], x);
        PlacedPath(g, waveOf, p);
        PlacedPath(g, waveOf, c);
      }
    }
  }

  lemma {:induction false} PlacedPath(g: Graph, waveOf: seq<int>, p: seq<nat>)
    requires Placed(g, waveOf) && Path(g, p) && waveOf[p[|p| - 1]] >= 0
    ensures 0 <= waveOf[p[0]] && waveOf[p[0]] + |p| - 1 <= waveOf[p[|p| - 1]]
  {
    if |p| > 1 {
      assert Edge(g, p[|p| - 1 - 1], p[|p| - 1]);
      PathPrefix(g, p, |p| - 1);
      PlacedPath(g, waveOf, p[..|p| - 1]);
    }
  }

  lemma AllPlacedCorrect(g: Graph, waves: seq<seq<nat>>, waveOf: seq<int>)
    requires Records(|g|, waves, waveOf) && Placed(g, waveOf) && WavesOrdered(g, waves)
    requires forall i: nat :: 0 <= i < |g| ==> waveOf[i] != -1
    ensures Acyclic(g) && CorrectPlan(g, waves)
  {
    var layer := waveOf;
    assert TightLayering(g, layer);
    LayeringAcyclic(g, layer);
    forall w: nat, i: nat | 0 <= w < |waves| && i in waves[w] ensures i < |g| && LongestWalkTo(g, i, w) {
      TightIsLongest(g, layer, i);
    }
    forall i: nat | i < |g| ensures InSomeWave(waves, i) {
      assert i in waves[waveOf[i]];
    }
  }
}
