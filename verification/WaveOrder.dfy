/** What the planner's contract determines: the whole plan, and when its waves are in index order. */
module WaveOrder {
  import opened Digraph
  import opened Kahn
  import opened Schedule

  // ----- a graph has one correct plan -----

  lemma LongestWalkUnique(g: Graph, i: nat, v: nat, w: nat)
    requires LongestWalkTo(g, i, v) && LongestWalkTo(g, i, w)
    ensures v == w
  {
    var p :| Path(g, p) && p[|p| - 1] == i && |p| == v + 1;
    var q :| Path(g, q) && q[|q| - 1] == i && |q| == w + 1;
  }

  lemma WaveMember(g: Graph, waves: seq<seq<nat>>, w: nat, i: nat)
    requires CorrectPlan(g, waves) && i < |g| && LongestWalkTo(g, i, w)
    ensures w < |waves| && i in waves[w]
  {
    assert InSomeWave(waves, i);
    var v :| 0 <= v < |waves| && i in waves[v];
    LongestWalkUnique(g, i, v, w);
  }

  ghost predicate SortedBy(less: (nat, nat) -> bool, s: seq<nat>) {
    forall a, b :: 0 <= a < b < |s| ==> less(s[a], s[b])
  }

  ghost predicate Asymmetric(less: (nat, nat) -> bool) {
    forall x: nat, y: nat {:trigger less(x, y)} :: !(less(x, y) && less(y, x))
  }

  /** A strict order sorts a set in one way only. */
  lemma {:induction false} SortedUnique(less: (nat, nat) -> bool, s: seq<nat>, t: seq<nat>)
    requires Asymmetric(less) && SortedBy(less, s) && SortedBy(less, t)
    requires forall x: nat :: x in s <==> x in t
    ensures s == t
  {
    assert s != [] ==> s[0] in t;
    assert t != [] ==> t[0] in s;
    if s != [] && t != [] {
      SortedHead(less, s);
      SortedHead(less, t);
      assert s[0] == t[0];
      TailMember(s);
      TailMember(t);
      assert forall x: nat :: x in s[1..] <==> x in s && x != s[0];
      SortedUnique(less, s[1..], t[1..]);
      assert s == [s[0]] + s[1..] && t == [t[0]] + t[1..];
    }
  }

  lemma TailMember(s: seq<nat>)
    requires s != [] && s[0] !in s[1..]
    ensures forall x: nat :: x in s[1..] <==> x in s && x != s[0]
  {
    assert s == [s[0]] + s[1..];
  }

  lemma SortedHead(less: (nat, nat) -> bool, s: seq<nat>)
    requires Asymmetric(less) && SortedBy(less, s) && s != []
    ensures SortedBy(less, s[1..])
    ensures s[0] !in s[1..]
    ensures forall x: nat :: x in s && x != s[0] ==> less(s[0], x)
  {
    forall k | 1 <= k < |s| ensures s[k] != s[0] {
      assert less(s[0], s[k]);
    }
  }

  lemma {:induction false} SameWave(g: Graph, a: seq<seq<nat>>, b: seq<seq<nat>>, w: nat)
    requires CorrectPlan(g, a) && CorrectPlan(g, b) && w < |a| && w < |b|
    ensures a[w] == b[w]
  {
    forall i: nat ensures i in a[w] <==> i in b[w] {
      if i in a[w] {
        WaveMember(g, b, w, i);
      }
      if i in b[w] {
        WaveMember(g, a, w, i);
      }
    }
    if w == 0 {
      SortedUnique((i: nat, j: nat) => i < j, a[w], b[w]);
    } else {
      SameWave(g, a, b, w - 1);
      var wave := a[w - 1];
      assert OrderedAfter(g, a[w - 1], a[w]) && OrderedAfter(g, b[w - 1], b[w]);
      var less := (i: nat, j: nat) => i < |g| && j < |g| && Precedes(g, wave, i, j);
      SortedUnique(less, a[w], b[w]);
    }
  }

  lemma PlanNotLonger(g: Graph, a: seq<seq<nat>>, b: seq<seq<nat>>)
    requires CorrectPlan(g, a) && CorrectPlan(g, b)
    ensures |a| <= |b|
  {
    if |a| > |b| {
      var i := a[|b|][0];
      assert i in a[|b|];
      WaveMember(g, b, |b|, i);
    }
  }

  /** The plan is a function of the graph: membership, wave order and order inside each wave. */
  lemma PlanUnique(g: Graph, a: seq<seq<nat>>, b: seq<seq<nat>>)
    requires CorrectPlan(g, a) && CorrectPlan(g, b)
    ensures a == b
  {
    PlanNotLonger(g, a, b);
    PlanNotLonger(g, b, a);
    forall w: nat | w < |a| ensures a[w] == b[w] {
      SameWave(g, a, b, w);
    }
  }

  // ----- the waves in terms of the tasks -----

  lemma DependencyIs(tasks: seq<TaskRef>, contexts: seq<seq<TaskRef>>, i: nat, j: nat)
    requires |contexts| == |tasks| && Distinct(tasks) && i < |tasks| && j < |tasks|
    ensures j in DepGraph(tasks, contexts)[i] <==> tasks[j] in contexts[i]
  {
    if tasks[j] in contexts[i] {
      var k :| 0 <= k < |contexts[i]| && contexts[i][k] == tasks[j];
      InListContains(tasks, contexts[i], k);
      assert IndexOf(tasks, tasks[j]) == j;
    }
  }

  /** Every task is in one wave. Those of its Context that are in the list are in earlier ones; in the first wave
      there are none, in a later one some are in the wave just before. */
  lemma WaveMeans(tasks: seq<TaskRef>, contexts: seq<seq<TaskRef>>, waves: seq<seq<nat>>, i: nat) returns (w: nat)
    requires |contexts| == |tasks| && Distinct(tasks) && CorrectPlan(DepGraph(tasks, contexts), waves) && i < |tasks|
    ensures w < |waves| && i in waves[w] && forall v: nat :: v < |waves| && i in waves[v] ==> v == w
    ensures forall j: nat, v: nat :: j < |tasks| && tasks[j] in contexts[i] && v < |waves| && j in waves[v] ==> v < w
    ensures w == 0 <==> forall j: nat :: j < |tasks| ==> tasks[j] !in contexts[i]
    ensures w > 0 ==> exists j: nat :: j < |tasks| && tasks[j] in contexts[i] && j in waves[w - 1]
  {
    var g := DepGraph(tasks, contexts);
    hide LongestWalkTo, CorrectPlan, Distinct;
    w := WaveAt(g, waves, i);
    forall v: nat | v < |waves| && i in waves[v] ensures v == w {
      MemberWalk(g, waves, i, v);
      LongestWalkUnique(g, i, v, w);
    }
    forall j: nat, v: nat | j < |tasks| && tasks[j] in contexts[i] && v < |waves| && j in waves[v] ensures v < w {
      DependencyIs(tasks, contexts, i, j);
      MemberWalk(g, waves, j, v);
      DependencyLower(g, j, i, v, w);
    }
    if w > 0 {
      var j := LongestWalkFrom(g, i, w - 1);
      DependencyIs(tasks, contexts, i, j);
      WaveMember(g, waves, w - 1, j);
    }
    forall j: nat | j < |tasks| && tasks[j] in contexts[i] ensures w > 0 {
      var v := WaveAt(g, waves, j);
    }
  }

  lemma WaveAt(g: Graph, waves: seq<seq<nat>>, i: nat) returns (w: nat)
    requires CorrectPlan(g, waves) && i < |g|
    ensures w < |waves| && i in waves[w] && LongestWalkTo(g, i, w)
  {
    assert InSomeWave(waves, i);
    w :| w < |waves| && i in waves[w];
  }

  lemma MemberWalk(g: Graph, waves: seq<seq<nat>>, i: nat, w: nat)
    requires CorrectPlan(g, waves) && w < |waves| && i in waves[w]
    ensures i < |g| && LongestWalkTo(g, i, w)
  {
    hide LongestWalkTo;
  }

  lemma DependencyLower(g: Graph, j: nat, i: nat, v: nat, w: nat)
    requires i < |g| && j in g[i] && LongestWalkTo(g, j, v) && LongestWalkTo(g, i, w)
    ensures v < w
  {
    var p :| Path(g, p) && p[|p| - 1] == j && |p| == v + 1;
    PathExtend(g, p, p[0], j, i);
    assert Path(g, p + [i]) && (p + [i])[|p + [i]| - 1] == i;
  }

  // ----- when the waves are in declaration order -----

  ghost predicate DependsAtOrAbove(g: Graph, j: nat, e: nat, w: nat) {
    j < |g| && exists d: nat :: d in g[j] && d >= e && LongestWalkTo(g, d, w)
  }

  /** Tasks of one wave depend on the wave before in step: the latest-declared dependency of the
      earlier-declared task is not declared after that of the later-declared one. */
  ghost predicate InStep(g: Graph, i: nat, j: nat, w: nat) {
    i < |g| && forall e: nat :: e in g[i] && LongestWalkTo(g, e, w) ==> DependsAtOrAbove(g, j, e, w)
  }

  ghost predicate AllInStep(g: Graph) {
    forall i: nat, j: nat, w: nat {:trigger InStep(g, i, j, w)} ::
      i < j < |g| && LongestWalkTo(g, i, w + 1) && LongestWalkTo(g, j, w + 1) ==> InStep(g, i, j, w)
  }

  ghost predicate AllAscending(waves: seq<seq<nat>>) {
    forall w: nat :: w < |waves| ==> Ascending(waves[w])
  }

  lemma LongestWalkFrom(g: Graph, j: nat, w: nat) returns (d: nat)
    requires j < |g| && LongestWalkTo(g, j, w + 1)
    ensures d in g[j] && d < |g| && LongestWalkTo(g, d, w)
  {
    var p :| Path(g, p) && p[|p| - 1] == j && |p| == w + 2;
    d := p[w];
    assert Edge(g, p[w], p[w + 1]);
    PathPrefix(g, p, w + 1);
    forall q | Path(g, q) && q[|q| - 1] == d ensures |q| <= w + 1 {
      PathExtend(g, q, q[0], d, j);
      assert Path(g, q + [j]) && (q + [j])[|q + [j]| - 1] == j;
    }
  }

  lemma UnlockedInPreviousWave(g: Graph, waves: seq<seq<nat>>, w: nat, j: nat)
    requires CorrectPlan(g, waves) && w + 1 < |waves| && j in waves[w + 1]
    ensures j < |g| && UnlockPos(g, waves[w], j) >= 0
  {
    var d := LongestWalkFrom(g, j, w);
    WaveMember(g, waves, w, d);
  }

  lemma AscendingPosition(s: seq<nat>, a: nat, b: nat)
    requires Ascending(s) && a < |s| && b < |s|
    ensures s[a] <= s[b] <==> a <= b
  {
  }

  lemma LaterUnlocked(g: Graph, waves: seq<seq<nat>>, w: nat, i: nat, j: nat)
    requires CorrectPlan(g, waves) && AllInStep(g) && w + 1 < |waves| && Ascending(waves[w])
    requires i in waves[w + 1] && j in waves[w + 1] && i < j < |g|
    ensures UnlockPos(g, waves[w], i) <= UnlockPos(g, waves[w], j)
  {
    var wave := waves[w];
    UnlockedInPreviousWave(g, waves, w, i);
    var e := wave[UnlockPos(g, wave, i)];
    assert e in waves[w];
    assert InStep(g, i, j, w);
    var d: nat :| d in g[j] && d >= e && LongestWalkTo(g, d, w);
    DependencyInRange(g, waves, w, j, d);
    var q :| 0 <= q < |wave| && wave[q] == d;
    AscendingPosition(wave, UnlockPos(g, wave, i), q);
    assert UnlockPos(g, wave, j) >= q;
  }

  lemma NeighboursOrdered(g: Graph, waves: seq<seq<nat>>, w: nat, a: nat, b: nat)
    requires CorrectPlan(g, waves) && w + 1 < |waves| && a < b < |waves[w + 1]|
    ensures var i, j := waves[w + 1][a], waves[w + 1][b];
            i in waves[w + 1] && j in waves[w + 1] && i != j && i < |g| && j < |g| && Precedes(g, waves[w], i, j)
  {
    hide LongestWalkTo, Precedes, UnlockPos, Ascending;
    assert Distinct(waves[w + 1]) && OrderedAfter(g, waves[w + 1 - 1], waves[w + 1]);
  }

  lemma AscendingNext(g: Graph, waves: seq<seq<nat>>, w: nat)
    requires CorrectPlan(g, waves) && AllInStep(g) && w + 1 < |waves| && Ascending(waves[w])
    ensures Ascending(waves[w + 1])
  {
    var next := waves[w + 1];
    hide CorrectPlan, AllInStep, UnlockPos;
    forall a: nat, b: nat | a < b < |next| ensures next[a] < next[b] {
      NeighboursOrdered(g, waves, w, a, b);
      if next[b] < next[a] {
        LaterUnlocked(g, waves, w, next[b], next[a]);
      }
    }
  }

  lemma DependencyInRange(g: Graph, waves: seq<seq<nat>>, w: nat, i: nat, d: nat)
    requires CorrectPlan(g, waves) && i < |g| && d in g[i] && LongestWalkTo(g, d, w)
    ensures w < |waves| && d in waves[w]
  {
    var p :| Path(g, p) && p[|p| - 1] == d && |p| == w + 1;
    WaveMember(g, waves, w, d);
  }

  lemma {:induction false} InStepAscending(g: Graph, waves: seq<seq<nat>>, w: nat)
    requires CorrectPlan(g, waves) && AllInStep(g) && w < |waves|
    ensures Ascending(waves[w])
  {
    if w > 0 {
      InStepAscending(g, waves, w - 1);
      AscendingNext(g, waves, w - 1);
    }
  }

  lemma LaterUnlock(g: Graph, waves: seq<seq<nat>>, i: nat, j: nat, w: nat)
    requires CorrectPlan(g, waves) && AllAscending(waves)
    requires i < j < |g| && w + 1 < |waves| && i in waves[w + 1] && j in waves[w + 1]
    ensures UnlockPos(g, waves[w], i) <= UnlockPos(g, waves[w], j)
  {
    var next := waves[w + 1];
    var a: nat :| a < |next| && next[a] == i;
    var b: nat :| b < |next| && next[b] == j;
    assert Ascending(next);
    AscendingPosition(next, b, a);
    NeighboursOrdered(g, waves, w, a, b);
    hide CorrectPlan, UnlockPos;
  }

  lemma AscendingInStep(g: Graph, waves: seq<seq<nat>>, i: nat, j: nat, w: nat)
    requires CorrectPlan(g, waves) && AllAscending(waves)
    requires i < j < |g| && LongestWalkTo(g, i, w + 1) && LongestWalkTo(g, j, w + 1)
    ensures InStep(g, i, j, w)
  {
    WaveMember(g, waves, w + 1, i);
    WaveMember(g, waves, w + 1, j);
    LaterUnlock(g, waves, i, j, w);
    UnlockedInPreviousWave(g, waves, w, j);
    var wave := waves[w];
    assert Ascending(wave);
    var d := wave[UnlockPos(g, wave, j)];
    assert d in waves[w] && d in g[j];
    MemberWalk(g, waves, d, w);
    hide CorrectPlan, LongestWalkTo, AllAscending;
    forall e: nat | e in g[i] && LongestWalkTo(g, e, w) ensures DependsAtOrAbove(g, j, e, w) {
      DependencyInRange(g, waves, w, i, e);
      var q :| 0 <= q < |wave| && wave[q] == e;
      assert q <= UnlockPos(g, wave, i);
      AscendingPosition(wave, q, UnlockPos(g, wave, j));
      assert d in g[j] && d >= e && LongestWalkTo(g, d, w);
    }
  }

  /** The waves list ascending indexes exactly when dependencies run in step with declarations. */
  lemma WavesAscendingIff(g: Graph, waves: seq<seq<nat>>)
    requires CorrectPlan(g, waves)
    ensures AllAscending(waves) <==> AllInStep(g)
  {
    if AllInStep(g) {
      forall w: nat | w < |waves| ensures Ascending(waves[w]) {
        InStepAscending(g, waves, w);
      }
    }
    if AllAscending(waves) {
      forall i: nat, j: nat, w: nat
        | i < j < |g| && LongestWalkTo(g, i, w + 1) && LongestWalkTo(g, j, w + 1)
        ensures InStep(g, i, j, w) {
        AscendingInStep(g, waves, i, j, w);
      }
    }
  }

  /** Two roots whose dependents are declared the other way round: the second wave descends. The tasks are
      0 to 3, task 2 has task 1 as its Context and task 3 has task 0. */
  lemma DescendingWave()
    ensures DepGraph<nat>([0, 1, 2, 3], [[], [], [1], [0]]) == [[], [], [1], [0]]
    ensures CorrectPlan(DepGraph<nat>([0, 1, 2, 3], [[], [], [1], [0]]), [[0, 1], [3, 2]])
  {
    DescendingGraph();
    DescendingPlan();
    hide *;
  }

  lemma DescendingPlan()
    ensures CorrectPlan([[], [], [1], [0]], [[0, 1], [3, 2]])
  {
    hide LongestWalkTo;
    var g: Graph := [[], [], [1], [0]];
    var waves: seq<seq<nat>> := [[0, 1], [3, 2]];
    DescendingLayers();
    forall w: nat, i: nat | w < |waves| && i in waves[w] ensures i < |g| && LongestWalkTo(g, i, w) {
      assert LongestWalkTo(g, 0, 0) && LongestWalkTo(g, 1, 0) && LongestWalkTo(g, 2, 1) && LongestWalkTo(g, 3, 1);
    }
    forall i: nat | i < |g| ensures InSomeWave(waves, i) {
      assert 0 in waves[0] && 1 in waves[0] && 2 in waves[1] && 3 in waves[1];
    }
    assert waves[0][0] == 0 && waves[0][1] == 1;
    assert UnlockPos(g, waves[0], 3) == 0 && UnlockPos(g, waves[0], 2) == 1;
    assert OrderedAfter(g, waves[0], waves[1]);
  }

  lemma Singles(tasks: seq<nat>, t: nat)
    requires t in tasks && IndexOf(tasks, t) == t
    ensures InList(tasks, []) == [] && InList(tasks, [t]) == [t]
  {
    assert [t][..0] == [];
    hide IndexOf;
  }

  lemma {:induction false} Identity(n: nat)
    ensures var tasks := seq(n, i => i);
            forall t: nat :: t < n ==> t in tasks && IndexOf(tasks, t) == t
  {
    var tasks: seq<nat> := seq(n, i => i);
    forall t: nat | t < n ensures t in tasks && IndexOf(tasks, t) == t {
      assert tasks[t] == t;
    }
    hide IndexOf;
  }

  lemma DescendingGraph()
    ensures DepGraph<nat>([0, 1, 2, 3], [[], [], [1], [0]]) == [[], [], [1], [0]]
  {
    Identity(4);
    assert seq(4, i => i) == [0, 1, 2, 3];
    hide InList, IndexOf;
    Singles([0, 1, 2, 3], 0);
    Singles([0, 1, 2, 3], 1);
  }

  lemma DescendingLayers()
    ensures var g: Graph := [[], [], [1], [0]];
            LongestWalkTo(g, 0, 0) && LongestWalkTo(g, 1, 0) && LongestWalkTo(g, 2, 1) && LongestWalkTo(g, 3, 1)
  {
    hide LongestWalkTo;
    var g: Graph := [[], [], [1], [0]];
    var layer: seq<nat> := [0, 0, 1, 1];
    assert g[2] == [1] && g[3] == [0];
    forall i: nat | i < |g| && layer[i] > 0 ensures DependsOnLayer(g, layer, i, layer[i] - 1) {
      assert g[i][0] in g[i] && layer[g[i][0]] == 0;
    }
    assert TightLayering(g, layer);
    TightIsLongest(g, layer, 0);
    TightIsLongest(g, layer, 1);
    TightIsLongest(g, layer, 2);
    TightIsLongest(g, layer, 3);
  }

  /** Task 0 has task 1 as its Context, and 1 and 2 have each other: 0, the first task no wave holds, is named as
      part of a cycle and lies on none. */
  lemma NamedOffCycle()
    ensures var g := DepGraph<nat>([0, 1, 2], [[1], [2], [1]]);
            && (forall i: nat :: i < |g| ==> i !in g[i]) && BehindCycle(g, 0) && !Acyclic(g)
            && forall c :: Cycle(g, c) ==> 0 !in c
  {
    OffCycleGraph();
    OffCycle();
    hide *;
  }

  lemma OffCycle()
    ensures var g: Graph := [[1], [2], [1]];
            && (forall i: nat :: i < |g| ==> i !in g[i]) && BehindCycle(g, 0) && !Acyclic(g)
            && forall c :: Cycle(g, c) ==> 0 !in c
  {
    var g: Graph := [[1], [2], [1]];
    var loop := [1, 2, 1];
    assert Cycle(g, loop) && PathBetween(g, [1, 0], 1, 0);
    forall c | Cycle(g, c) ensures 0 !in c {
      forall k: nat | k < |c| - 1 ensures c[k] != 0 {
        assert Edge(g, c[k], c[k + 1]);
      }
    }
  }

  lemma OffCycleGraph()
    ensures DepGraph<nat>([0, 1, 2], [[1], [2], [1]]) == [[1], [2], [1]]
  {
    Identity(3);
    assert seq(3, i => i) == [0, 1, 2];
    hide InList, IndexOf;
    Singles([0, 1, 2], 1);
    Singles([0, 1, 2], 2);
  }
}
