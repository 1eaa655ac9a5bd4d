/** What a run without fail-fast leaves behind (crew.go: runAsyncWaves, markFailed, failedUpstream).
  *
  * `failedUpstream` looks one level up only; over a whole run that is enough to skip exactly the tasks some
  * failed task leads to.
  */
module FailureClosure {
  import opened Common
  import opened Digraph
  import opened Kahn
  import opened Schedule
  import opened TaskGroup
  import opened AsyncCrew

  // ----- one list of executed tasks -----

  function Reported(out: CrewOutput): (r: seq<nat>)
    ensures |r| == |out.tasksOutput| && forall k :: 0 <= k < |r| ==> r[k] == out.tasksOutput[k].index
  {
    seq(|out.tasksOutput|, k requires 0 <= k < |out.tasksOutput| => out.tasksOutput[k].index)
  }

  /** Of the executed tasks idxs, those with an output: an agent ran them and they are not in broke. */
  function Reports<Store>(env: Env<Store>, tasks: seq<TaskRef>, idxs: seq<nat>, broke: set<nat>): seq<nat>
    requires Within(tasks, idxs)
  {
    if idxs == [] then []
    else
      var i := idxs[|idxs| - 1];
      var before := Reports(env, tasks, idxs[..|idxs| - 1], broke);
      if i !in broke && env.hasAgent(tasks[i]) then before + [i] else before
  }

  lemma {:induction false} ReportsMember<Store>(env: Env<Store>, tasks: seq<TaskRef>, idxs: seq<nat>, broke: set<nat>,
                                                i: nat)
    requires Within(tasks, idxs)
    ensures i in Reports(env, tasks, idxs, broke) <==> i in idxs && i !in broke && i < |tasks| && env.hasAgent(tasks[i])
  {
    if idxs != [] {
      ReportsMember(env, tasks, idxs[..|idxs| - 1], broke, i);
      assert idxs == idxs[..|idxs| - 1] + [idxs[|idxs| - 1]];
    }
  }

  ghost predicate FailedBy(tasks: seq<TaskRef>, broke: set<nat>, t: TaskRef) {
    exists f: nat :: f in broke && f < |tasks| && tasks[f] == t
  }

  /** From st to st' the tasks idxs were executed, of which broke failed. */
  ghost predicate Executed<Store>(env: Env<Store>, tasks: seq<TaskRef>, idxs: seq<nat>, broke: set<nat>,
                                  st: CrewState<Store>, st': CrewState<Store>) {
    && Within(tasks, idxs)
    && st'.ran == st.ran + idxs
    && (forall f: nat :: f in broke ==> f in idxs)
    && st'.broke == st.broke + broke
    && (forall t: TaskRef :: t in st'.failed <==> t in st.failed || FailedBy(tasks, broke, t))
    && Reported(st'.out) == Reported(st.out) + Reports(env, tasks, idxs, broke)
    && forall f: nat :: f in broke ==> f < |tasks| && env.hasAgent(tasks[f])
  }

  lemma {:induction false} ReportsAppend<Store>(env: Env<Store>, tasks: seq<TaskRef>, a: seq<nat>, b: seq<nat>,
                                                broke: set<nat>)
    requires Within(tasks, a) && Within(tasks, b)
    ensures Within(tasks, a + b) && Reports(env, tasks, a + b, broke) == Reports(env, tasks, a, broke) + Reports(env, tasks, b, broke)
  {
    if b == [] {
      assert a + b == a;
    } else {
      ReportsAppend(env, tasks, a, b[..|b| - 1], broke);
      assert (a + b)[..|a + b| - 1] == a + b[..|b| - 1];
    }
  }

  lemma {:induction false} ReportsLocal<Store>(env: Env<Store>, tasks: seq<TaskRef>, idxs: seq<nat>, a: set<nat>,
                                               b: set<nat>)
    requires Within(tasks, idxs) && forall i: nat :: i in idxs ==> (i in a <==> i in b)
    ensures Reports(env, tasks, idxs, a) == Reports(env, tasks, idxs, b)
  {
    if idxs != [] {
      ReportsLocal(env, tasks, idxs[..|idxs| - 1], a, b);
      assert idxs[|idxs| - 1] in idxs;
    }
  }

  lemma ExecutedNothing<Store>(env: Env<Store>, tasks: seq<TaskRef>, st: CrewState<Store>)
    ensures Executed(env, tasks, [], {}, st, st)
  {
  }

  lemma ExecutedBoth<Store>(env: Env<Store>, tasks: seq<TaskRef>, a: seq<nat>, b: seq<nat>, x: set<nat>, y: set<nat>,
                            st: CrewState<Store>, mid: CrewState<Store>, end: CrewState<Store>)
    requires Executed(env, tasks, a, x, st, mid) && Executed(env, tasks, b, y, mid, end)
    requires Distinct(a + b)
    ensures Executed(env, tasks, a + b, x + y, st, end)
  {
    hide Reports, Reported, FailedBy, Distinct;
    ReportsBoth(env, tasks, a, b, x, y);
    forall t: TaskRef ensures FailedBy(tasks, x + y, t) <==> FailedBy(tasks, x, t) || FailedBy(tasks, y, t) {
      FailedByEither(tasks, x, y, t);
    }
  }

  lemma FailedByEither(tasks: seq<TaskRef>, x: set<nat>, y: set<nat>, t: TaskRef)
    ensures FailedBy(tasks, x + y, t) <==> FailedBy(tasks, x, t) || FailedBy(tasks, y, t)
  {
  }

  lemma ReportsBoth<Store>(env: Env<Store>, tasks: seq<TaskRef>, a: seq<nat>, b: seq<nat>, x: set<nat>, y: set<nat>)
    requires Within(tasks, a) && Within(tasks, b) && Distinct(a + b)
    requires (forall i: nat :: i in x ==> i in a) && (forall i: nat :: i in y ==> i in b)
    ensures Within(tasks, a + b) && Reports(env, tasks, a + b, x + y) == Reports(env, tasks, a, x) + Reports(env, tasks, b, y)
  {
    ReportsAppend(env, tasks, a, b, x + y);
    forall i: nat ensures !(i in a && i in b) {
      DistinctApart(a, b, i);
    }
    ReportsLocal(env, tasks, a, x, x + y);
    ReportsLocal(env, tasks, b, y, x + y);
  }

  lemma DistinctApart(a: seq<nat>, b: seq<nat>, i: nat)
    requires Distinct(a + b)
    ensures !(i in a && i in b)
  {
    forall j, k | 0 <= j < |a| && 0 <= k < |b| ensures a[j] != b[k] {
      assert (a + b)[j] == a[j] && (a + b)[|a| + k] == b[k];
    }
  }

  lemma FoldTaskExecutes<Store>(env: Env<Store>, g: Snapshot<Store>, tasks: seq<TaskRef>, i: nat,
                                warnings: seq<string>, st: CrewState<Store>)
    returns (broke: set<nat>)
    requires i < |tasks|
    ensures Executed(env, tasks, [i], broke, st, FoldTask(OwnResult(env, g, tasks[i]), i, tasks[i], warnings, st))
  {
    var end := FoldTask(OwnResult(env, g, tasks[i]), i, tasks[i], warnings, st);
    broke := if Broke(env, g, tasks[i]) then {i} else {};
    assert [i][..0] == [];
    assert Reports(env, tasks, [i][..0], broke) == [];
    assert Reported(end.out) == Reported(st.out) + Reports(env, tasks, [i], broke);
    forall t: TaskRef ensures t in end.failed <==> t in st.failed || FailedBy(tasks, broke, t) {
      if t == tasks[i] && i in broke {
        assert FailedBy(tasks, broke, t);
      }
    }
  }

  lemma {:induction false} FoldExecutes<Store>(env: Env<Store>, g: Snapshot<Store>, tasks: seq<TaskRef>,
                                               idxs: seq<nat>, st: CrewState<Store>)
    returns (broke: set<nat>)
    requires Within(tasks, idxs) && Distinct(idxs)
    ensures Executed(env, tasks, idxs, broke, st, SeqFold(env, g, tasks, idxs, st))
  {
    hide Executed, FoldTask, OwnResult;
    if idxs == [] {
      broke := {};
      ExecutedNothing(env, tasks, st);
    } else {
      var front, i := idxs[..|idxs| - 1], idxs[|idxs| - 1];
      var x := FoldExecutes(env, g, tasks, front, st);
      var mid := SeqFold(env, g, tasks, front, st);
      var y := FoldTaskExecutes(env, g, tasks, i, WarningsOf(st.warnings, tasks[i]), mid);
      assert idxs == front + [i];
      ExecutedBoth(env, tasks, front, [i], x, y, st, mid, SeqFold(env, g, tasks, idxs, st));
      broke := x + y;
    }
  }

  // ----- the groups of a wave -----

  function Flat(groups: seq<seq<nat>>): seq<nat> {
    if groups == [] then [] else Flat(groups[..|groups| - 1]) + groups[|groups| - 1]
  }

  lemma {:induction false} FlatAppend(a: seq<seq<nat>>, b: seq<seq<nat>>)
    ensures Flat(a + b) == Flat(a) + Flat(b)
  {
    if b == [] {
      assert a + b == a;
    } else {
      FlatAppend(a, b[..|b| - 1]);
      assert (a + b)[..|a + b| - 1] == a + b[..|b| - 1];
    }
  }

  lemma {:induction false} FlatChunks(idxs: seq<nat>, n: nat)
    ensures Flat(Chunks(idxs, n)) == idxs
    decreases |idxs|
  {
    if idxs == [] {
    } else if n == 0 || |idxs| <= n {
      assert [idxs][..0] == [] && Flat([idxs]) == Flat([]) + idxs;
    } else {
      FlatChunks(idxs[n..], n);
      FlatAppend([idxs[..n]], Chunks(idxs[n..], n));
      assert [idxs[..n]][..0] == [] && Flat([idxs[..n]]) == Flat([]) + idxs[..n];
      assert idxs == idxs[..n] + idxs[n..];
    }
  }

  lemma {:induction false} FlatSingles(idxs: seq<nat>)
    ensures Flat(Singles(idxs)) == idxs
  {
    if idxs != [] {
      FlatSingles(idxs[..|idxs| - 1]);
      assert Singles(idxs)[..|idxs| - 1] == Singles(idxs[..|idxs| - 1]);
    }
  }

  /** A wave's execution order: the Async tasks, then the others. */
  function ExecutionOrder(r: Roster, remaining: seq<nat>): seq<nat> {
    Pick(remaining, r.async, true) + Pick(remaining, r.async, false)
  }

  lemma FlatGroups(r: Roster, n: nat, remaining: seq<nat>)
    ensures Flat(GroupsOf(r, n, remaining)) == ExecutionOrder(r, remaining)
  {
    hide Flat, Chunks, Singles, Pick;
    var a, b := Pick(remaining, r.async, true), Pick(remaining, r.async, false);
    FlatAppend(Chunks(a, n), Singles(b));
    FlatChunks(a, n);
    FlatSingles(b);
  }

  lemma OrderMember(r: Roster, remaining: seq<nat>, i: nat)
    ensures i in ExecutionOrder(r, remaining) <==> i in remaining
  {
    hide Pick;
  }

  lemma OrderDistinct(r: Roster, remaining: seq<nat>)
    requires Distinct(remaining)
    ensures Distinct(ExecutionOrder(r, remaining))
  {
    hide Pick;
    var a, b := Pick(remaining, r.async, true), Pick(remaining, r.async, false);
    PickDistinct(remaining, r.async, true);
    PickDistinct(remaining, r.async, false);
    forall j, k | 0 <= j < |a| && 0 <= k < |b| ensures a[j] != b[k] {
      assert a[j] in a && b[k] in b;
    }
  }

  lemma {:induction false} GroupsExecute<Store>(env: Env<Store>, tasks: seq<TaskRef>, groups: seq<seq<nat>>,
                                                st: CrewState<Store>)
    returns (broke: set<nat>)
    requires !env.failFast && AllWithin(tasks, groups) && Distinct(Flat(groups))
    ensures RunGroups(env, tasks, groups, st).Completed?
    ensures Executed(env, tasks, Flat(groups), broke, st, RunGroups(env, tasks, groups, st).state)
  {
    hide Executed, SeqFold, SeqSave, SeqOutputs, SeqWarnings;
    if groups == [] {
      broke := {};
      ExecutedNothing(env, tasks, st);
    } else {
      var front, idxs := groups[..|groups| - 1], groups[|groups| - 1];
      DistinctParts(Flat(front), idxs);
      var x := GroupsExecute(env, tasks, front, st);
      var mid := RunGroups(env, tasks, front, st).state;
      var y := GroupExecutes(env, tasks, idxs, mid);
      var end := RunGroup(env, tasks, idxs, mid).state;
      ExecutedBoth(env, tasks, Flat(front), idxs, x, y, st, mid, end);
      broke := x + y;
    }
  }

  lemma DistinctParts(a: seq<nat>, b: seq<nat>)
    requires Distinct(a + b)
    ensures Distinct(a) && Distinct(b)
  {
    forall j, k | 0 <= j < k < |a| ensures a[j] != a[k] {
      assert (a + b)[j] == a[j] && (a + b)[k] == a[k];
    }
    forall j, k | 0 <= j < k < |b| ensures b[j] != b[k] {
      assert (a + b)[|a| + j] == b[j] && (a + b)[|a| + k] == b[k];
    }
  }

  lemma GroupExecutes<Store>(env: Env<Store>, tasks: seq<TaskRef>, idxs: seq<nat>, st: CrewState<Store>)
    returns (broke: set<nat>)
    requires !env.failFast && Within(tasks, idxs) && Distinct(idxs)
    ensures RunGroup(env, tasks, idxs, st).Completed?
    ensures Executed(env, tasks, idxs, broke, st, RunGroup(env, tasks, idxs, st).state)
  {
    hide SeqFold, SeqSave, SeqOutputs, SeqWarnings;
    var g := SnapshotOf(st);
    var ts := TasksAt(tasks, idxs);
    var saved := SeqSave(env, g, ts, Saved(g.store, SeqWarnings(env, g, ts)));
    var base := st.(outputs := SeqOutputs(env, g, ts), warnings := saved.warnings, store := saved.store);
    broke := FoldExecutes(env, g, tasks, idxs, base);
  }

  // ----- the skip pass looks one level up -----

  ghost predicate Upstream<Store>(env: Env<Store>, failed: FailedTasks, t: TaskRef) {
    exists d :: d in env.context(t) && d in failed
  }

  lemma {:induction false} FailedUpstreamIs(failed: FailedTasks, context: seq<TaskRef>)
    ensures FailedUpstream(failed, context).Some? <==> exists d :: d in context && d in failed
  {
    if context != [] {
      FailedUpstreamIs(failed, context[1..]);
      assert context == [context[0]] + context[1..];
    }
  }

  /** No task of the wave is in the Context of another. */
  ghost predicate Unrelated<Store>(env: Env<Store>, tasks: seq<TaskRef>, wave: seq<nat>) {
    && Within(tasks, wave)
    && forall i: nat, j: nat {:trigger tasks[j] in env.context(tasks[i])} ::
         i in wave && j in wave && i < |tasks| && j < |tasks| ==> tasks[j] !in env.context(tasks[i])
  }

  ghost predicate SkippedBy(tasks: seq<TaskRef>, wave: seq<nat>, remaining: seq<nat>, t: TaskRef) {
    exists i: nat :: i in wave && i !in remaining && i < |tasks| && tasks[i] == t
  }

  ghost predicate Skims<Store>(env: Env<Store>, tasks: seq<TaskRef>, wave: seq<nat>, failed: FailedTasks, skim: Skim) {
    && (forall i: nat :: i in skim.remaining <==> i in wave && i < |tasks| && !Upstream(env, failed, tasks[i]))
    && (forall t: TaskRef :: t in skim.failed <==> t in failed || SkippedBy(tasks, wave, skim.remaining, t))
  }

  lemma SkimsNext<Store>(env: Env<Store>, tasks: seq<TaskRef>, wave: seq<nat>, failed: FailedTasks, before: Skim,
                         i: nat, err: TaskError)
    requires Within(tasks, wave) && i < |tasks| && i !in wave
    requires Skims(env, tasks, wave, failed, before)
    ensures Skims(env, tasks, wave + [i], failed,
                  if Upstream(env, failed, tasks[i]) then Skim(before.failed[tasks[i] := err], before.remaining)
                  else Skim(before.failed, before.remaining + [i]))
  {
    hide Upstream;
    var after := if Upstream(env, failed, tasks[i]) then Skim(before.failed[tasks[i] := err], before.remaining)
                 else Skim(before.failed, before.remaining + [i]);
    forall t: TaskRef ensures t in after.failed <==> t in failed || SkippedBy(tasks, wave + [i], after.remaining, t) {
      if SkippedBy(tasks, wave, before.remaining, t) {
        var j: nat :| j in wave && j !in before.remaining && j < |tasks| && tasks[j] == t;
        assert j in wave + [i] && j !in after.remaining;
      }
      if SkippedBy(tasks, wave + [i], after.remaining, t) {
        var j: nat :| j in wave + [i] && j !in after.remaining && j < |tasks| && tasks[j] == t;
      }
    }
  }

  lemma {:induction false} SkipPassIs<Store>(env: Env<Store>, tasks: seq<TaskRef>, wave: seq<nat>, failed: FailedTasks)
    requires Unrelated(env, tasks, wave) && Distinct(wave)
    ensures Skims(env, tasks, wave, failed, SkipPass(env, tasks, wave, failed))
  {
    hide Upstream, SkippedBy;
    if wave == [] {
      forall t: TaskRef ensures !SkippedBy(tasks, wave, [], t) {
        NoneSkipped(tasks, t);
      }
    } else {
      var front, i := wave[..|wave| - 1], wave[|wave| - 1];
      assert wave == front + [i];
      SkipPassIs(env, tasks, front, failed);
      var before := SkipPass(env, tasks, front, failed);
      forall t: TaskRef ensures t in before.failed ==> t in failed || SkippedBy(tasks, wave, [], t) {
        if SkippedBy(tasks, front, before.remaining, t) {
          SkippedSome(tasks, front, before.remaining, i, t);
        }
      }
      UpstreamFront(env, tasks, wave, before, failed, i);
      var err := FailedUpstream(before.failed, env.context(tasks[i]));
      SkimsNext(env, tasks, front, failed, before, i, if err.Some? then err.value else NoAgent);
    }
  }

  lemma NoneSkipped(tasks: seq<TaskRef>, t: TaskRef)
    ensures !SkippedBy(tasks, [], [], t)
  {
  }

  lemma SkippedSome(tasks: seq<TaskRef>, front: seq<nat>, remaining: seq<nat>, i: nat, t: TaskRef)
    requires SkippedBy(tasks, front, remaining, t)
    ensures SkippedBy(tasks, front + [i], [], t)
  {
    var j: nat :| j in front && j !in remaining && j < |tasks| && tasks[j] == t;
    assert j in front + [i] && j !in [];
  }

  lemma UpstreamFront<Store>(env: Env<Store>, tasks: seq<TaskRef>, wave: seq<nat>, before: Skim, failed: FailedTasks,
                             i: nat)
    requires Unrelated(env, tasks, wave) && i in wave && i < |tasks|
    requires forall t: TaskRef :: t in failed ==> t in before.failed
    requires forall t: TaskRef :: t in before.failed ==> t in failed || SkippedBy(tasks, wave, [], t)
    ensures FailedUpstream(before.failed, env.context(tasks[i])).Some? <==> Upstream(env, failed, tasks[i])
  {
    FailedUpstreamIs(before.failed, env.context(tasks[i]));
    forall d: TaskRef | d in env.context(tasks[i]) ensures !SkippedBy(tasks, wave, [], d) {
    }
  }

  // ----- waves -----

  /** A failed task other than i leads to i. */
  ghost predicate Downstream(g: Graph, broke: set<nat>, i: nat) {
    exists f: nat :: f in broke && f != i && Reaches(g, f, i)
  }

  ghost predicate ReachedBy(g: Graph, broke: set<nat>, i: nat) {
    exists f: nat :: f in broke && Reaches(g, f, i)
  }

  /** i ran unless a failed task leads to it; it is marked failed if it failed itself or one does. */
  ghost predicate SettledTask<Store>(g: Graph, tasks: seq<TaskRef>, st: CrewState<Store>, i: nat) {
    && i < |tasks|
    && (i in st.ran <==> !Downstream(g, st.broke, i))
    && (tasks[i] in st.failed <==> ReachedBy(g, st.broke, i))
  }

  ghost predicate InFirst(waves: seq<seq<nat>>, w: nat, i: nat) {
    exists v :: 0 <= v < w && v < |waves| && i in waves[v]
  }

  ghost predicate Settled<Store>(env: Env<Store>, tasks: seq<TaskRef>, waves: seq<seq<nat>>, w: nat,
                                 st: CrewState<Store>)
    requires |ContextsOf(env, tasks)| == |tasks|
  {
    && Within(tasks, st.ran) && Distinct(st.ran)
    && (forall i: nat :: i in st.ran ==> InFirst(waves, w, i))
    && (forall f: nat :: f in st.broke ==> f in st.ran && f < |tasks| && env.hasAgent(tasks[f]))
    && (forall t: TaskRef :: t in st.failed ==> FromFirst(tasks, waves, w, t))
    && (forall i: nat :: InFirst(waves, w, i) ==> SettledTask(DepGraph(tasks, ContextsOf(env, tasks)), tasks, st, i))
    && Reported(st.out) == Reports(env, tasks, st.ran, st.broke)
  }

  ghost predicate FromFirst(tasks: seq<TaskRef>, waves: seq<seq<nat>>, w: nat, t: TaskRef) {
    exists i: nat :: i < |tasks| && tasks[i] == t && InFirst(waves, w, i)
  }

  lemma EdgeContext<Store>(env: Env<Store>, tasks: seq<TaskRef>, d: nat, i: nat)
    requires Edge(DepGraph(tasks, ContextsOf(env, tasks)), d, i)
    ensures i < |tasks| && d < |tasks| && tasks[d] in env.context(tasks[i])
  {
  }

  /** The walk from a failed task enters i through a task of an earlier wave. */
  lemma EarlierDependency<Store>(env: Env<Store>, tasks: seq<TaskRef>, waves: seq<seq<nat>>, w: nat, f: nat, i: nat)
    returns (d: nat)
    requires Planned(env, tasks, waves) && w < |waves| && i in waves[w] && f != i
    requires Reaches(DepGraph(tasks, ContextsOf(env, tasks)), f, i)
    ensures var g := DepGraph(tasks, ContextsOf(env, tasks));
            Edge(g, d, i) && Reaches(g, f, d) && InFirst(waves, w, d)
  {
    var g := DepGraph(tasks, ContextsOf(env, tasks));
    hide LongestWalkTo, Reaches;
    ReachesLastEdge(g, f, i);
    d :| Edge(g, d, i) && Reaches(g, f, d);
    EdgeContext(env, tasks, d, i);
    assert InSomeWave(waves, d);
    var v :| 0 <= v < |waves| && d in waves[v];
    assert LongestWalkTo(g, d, v) && LongestWalkTo(g, i, w);
    WalkContinues(g, v, i, d, w);
  }

  /** One level up is enough: i is skipped exactly when some failed task leads to it. */
  lemma SkippedIff<Store>(env: Env<Store>, tasks: seq<TaskRef>, waves: seq<seq<nat>>, w: nat, st: CrewState<Store>,
                          i: nat)
    requires Planned(env, tasks, waves) && w < |waves| && i in waves[w] && i < |tasks| && Settled(env, tasks, waves, w, st)
    ensures var g := DepGraph(tasks, ContextsOf(env, tasks));
            Upstream(env, st.failed, tasks[i]) <==> ReachedBy(g, st.broke, i)
  {
    var g := DepGraph(tasks, ContextsOf(env, tasks));
    hide LongestWalkTo, Reaches, CorrectPlan;
    if Upstream(env, st.failed, tasks[i]) {
      var t :| t in env.context(tasks[i]) && t in st.failed;
      assert FromFirst(tasks, waves, w, t);
      var d: nat :| d < |tasks| && tasks[d] == t && InFirst(waves, w, d);
      PlannedEdge(env, tasks, i, d);
      assert SettledTask(g, tasks, st, d);
      var f: nat :| f in st.broke && Reaches(g, f, d);
      ReachesStep(g, f, d, i);
    }
    if ReachedBy(g, st.broke, i) {
      var f: nat :| f in st.broke && Reaches(g, f, i);
      OneWaveOnly(env, tasks, waves, w, i);
      assert f in st.ran && InFirst(waves, w, f) && !InFirst(waves, w, i);
      var d := EarlierDependency(env, tasks, waves, w, f, i);
      EdgeContext(env, tasks, d, i);
      assert SettledTask(g, tasks, st, d) && ReachedBy(g, st.broke, d);
    }
  }

  /** A task of wave w leads to no other task of the same or an earlier wave. */
  lemma LeadsOnwards<Store>(env: Env<Store>, tasks: seq<TaskRef>, waves: seq<seq<nat>>, w: nat, f: nat, i: nat)
    requires Planned(env, tasks, waves) && w < |waves| && f in waves[w] && InFirst(waves, w + 1, i) && f != i
    ensures !Reaches(DepGraph(tasks, ContextsOf(env, tasks)), f, i)
  {
    var g := DepGraph(tasks, ContextsOf(env, tasks));
    hide LongestWalkTo, Reaches;
    var v: nat :| v < w + 1 && v < |waves| && i in waves[v];
    assert LongestWalkTo(g, f, w) && LongestWalkTo(g, i, v);
    if Reaches(g, f, i) {
      LongestWalkGrows(g, f, i, w, v);
    }
  }

  /** The failures of wave w change nothing for the tasks settled before, and reach no wave-mate. */
  lemma NewFailures<Store>(env: Env<Store>, tasks: seq<TaskRef>, waves: seq<seq<nat>>, w: nat, broke: set<nat>,
                           more: set<nat>, i: nat)
    requires Planned(env, tasks, waves) && w < |waves| && InFirst(waves, w + 1, i)
    requires forall f: nat :: f in more ==> f in waves[w]
    ensures var g := DepGraph(tasks, ContextsOf(env, tasks));
            && (Downstream(g, broke + more, i) <==> Downstream(g, broke, i))
            && (ReachedBy(g, broke + more, i) <==> ReachedBy(g, broke, i) || i in more)
  {
    var g := DepGraph(tasks, ContextsOf(env, tasks));
    forall f: nat | f in more && f != i ensures !Reaches(g, f, i) {
      LeadsOnwards(env, tasks, waves, w, f, i);
    }
    var v :| 0 <= v < w + 1 && v < |waves| && i in waves[v];
    assert i < |g|;
    ReachesSelf(g, i);
    hide Planned, Reaches;
  }

  lemma FailedNow<Store>(env: Env<Store>, tasks: seq<TaskRef>, wave: seq<nat>, failed: FailedTasks, skim: Skim,
                         order: seq<nat>,
                         more: set<nat>, st: CrewState<Store>, end: CrewState<Store>, i: nat)
    requires Distinct(tasks) && i < |tasks|
    requires Skims(env, tasks, wave, failed, skim) && st.failed == skim.failed
    requires Executed(env, tasks, order, more, st, end)
    ensures tasks[i] in end.failed <==> tasks[i] in failed || (i in wave && i !in skim.remaining) || i in more
  {
    hide Upstream, Reports, Reported;
    assert SkippedBy(tasks, wave, skim.remaining, tasks[i]) <==> i in wave && i !in skim.remaining;
    assert FailedBy(tasks, more, tasks[i]) <==> i in more;
  }

  /** What one wave does, in the terms of Settled. */
  ghost predicate WaveRan<Store>(env: Env<Store>, tasks: seq<TaskRef>, wave: seq<nat>, order: seq<nat>, more: set<nat>,
                                 st: CrewState<Store>, end: CrewState<Store>) {
    && end.ran == st.ran + order && end.broke == st.broke + more
    && (forall f: nat :: f in more ==> f in order)
    && (forall i: nat :: i in order <==> i in wave && i < |tasks| && !Upstream(env, st.failed, tasks[i]))
    && (forall i: nat :: i < |tasks| ==> (tasks[i] in end.failed <==> tasks[i] in st.failed || (i in wave && i !in order) || i in more))
    && (forall t: TaskRef :: t in end.failed ==> t in st.failed || exists i: nat :: i in wave && i < |tasks| && tasks[i] == t)
  }

  lemma EarlierTaskKept<Store>(env: Env<Store>, tasks: seq<TaskRef>, waves: seq<seq<nat>>, w: nat, order: seq<nat>,
                               more: set<nat>,
                               st: CrewState<Store>, end: CrewState<Store>, i: nat)
    requires Planned(env, tasks, waves) && w < |waves| && Settled(env, tasks, waves, w, st)
    requires WaveRan(env, tasks, waves[w], order, more, st, end) && InFirst(waves, w, i)
    ensures SettledTask(DepGraph(tasks, ContextsOf(env, tasks)), tasks, end, i)
  {
    hide Reaches, CorrectPlan, Upstream, Reported, Reports;
    var g := DepGraph(tasks, ContextsOf(env, tasks));
    var v :| 0 <= v < w && v < |waves| && i in waves[v];
    assert InFirst(waves, w + 1, i);
    if i in waves[w] {
      OneWaveOnly(env, tasks, waves, w, i);
      assert false;
    }
    NewFailures(env, tasks, waves, w, st.broke, more, i);
    assert SettledTask(g, tasks, st, i);
  }

  lemma WaveTaskSettled<Store>(env: Env<Store>, tasks: seq<TaskRef>, waves: seq<seq<nat>>, w: nat, order: seq<nat>,
                               more: set<nat>,
                               st: CrewState<Store>, end: CrewState<Store>, i: nat)
    requires Planned(env, tasks, waves) && w < |waves| && Settled(env, tasks, waves, w, st)
    requires WaveRan(env, tasks, waves[w], order, more, st, end) && i in waves[w]
    ensures SettledTask(DepGraph(tasks, ContextsOf(env, tasks)), tasks, end, i)
  {
    hide Reaches, CorrectPlan, Upstream, Reported, Reports;
    var g := DepGraph(tasks, ContextsOf(env, tasks));
    OneWaveOnly(env, tasks, waves, w, i);
    assert InFirst(waves, w + 1, i) && !InFirst(waves, w, i);
    NewFailures(env, tasks, waves, w, st.broke, more, i);
    SkippedIff(env, tasks, waves, w, st, i);
    assert i !in st.ran && i !in st.broke;
    assert Downstream(g, st.broke, i) <==> ReachedBy(g, st.broke, i);
    assert FromFirst(tasks, waves, w, tasks[i]) ==> InFirst(waves, w, i);
  }

  lemma WaveSkims<Store>(env: Env<Store>, tasks: seq<TaskRef>, waves: seq<seq<nat>>, w: nat, failed: FailedTasks)
    requires Planned(env, tasks, waves) && w < |waves| && Within(tasks, waves[w])
    ensures var skim := SkipPass(env, tasks, waves[w], failed);
            Skims(env, tasks, waves[w], failed, skim) && Within(tasks, skim.remaining) && Distinct(skim.remaining)
  {
    hide SkipPass, Skims, CorrectPlan, WaveIndependent;
    var wave := waves[w];
    PlannedIndependent(env, tasks, waves, w);
    forall i: nat, j: nat | i in wave && j in wave && i < |tasks| && j < |tasks|
      ensures tasks[j] !in env.context(tasks[i]) {
      NoEdgeInWave(env, tasks, waves, w, i, j);
    }
    SkipPassIs(env, tasks, wave, failed);
    SkipPassSubset(env, tasks, wave, failed);
    SkipPassDistinct(env, tasks, wave, failed);
  }

  lemma SkimmedRan<Store>(env: Env<Store>, r: Roster, wave: seq<nat>, skim: Skim, more: set<nat>, st: CrewState<Store>,
                          mid: CrewState<Store>, end: CrewState<Store>)
    requires Distinct(r.tasks) && Skims(env, r.tasks, wave, st.failed, skim) && mid == st.(failed := skim.failed)
    requires Executed(env, r.tasks, ExecutionOrder(r, skim.remaining), more, mid, end)
    ensures WaveRan(env, r.tasks, wave, ExecutionOrder(r, skim.remaining), more, st, end)
  {
    hide Upstream, Reports, Reported, ExecutionOrder;
    var order := ExecutionOrder(r, skim.remaining);
    forall i: nat ensures i in order <==> i in skim.remaining {
      OrderMember(r, skim.remaining, i);
    }
    forall i: nat | i < |r.tasks|
      ensures r.tasks[i] in end.failed <==> r.tasks[i] in st.failed || (i in wave && i !in order) || i in more {
      FailedNow(env, r.tasks, wave, st.failed, skim, order, more, mid, end, i);
    }
    forall t: TaskRef | t in end.failed && t !in st.failed ensures exists i: nat :: i in wave && i < |r.tasks| && r.tasks[i] == t {
      if t !in skim.failed {
        assert FailedBy(r.tasks, more, t);
        var f: nat :| f in more && f < |r.tasks| && r.tasks[f] == t;
        assert f in wave;
      } else {
        assert SkippedBy(r.tasks, wave, skim.remaining, t);
      }
    }
  }

  lemma WaveExecutes<Store>(env: Env<Store>, r: Roster, waves: seq<seq<nat>>, w: nat, st: CrewState<Store>)
    returns (order: seq<nat>, more: set<nat>)
    requires !env.failFast && RosterOk(r) && Planned(env, r.tasks, waves) && w < |waves| && Within(r.tasks, waves[w])
    ensures RunWave(env, r, waves[w], st).Completed?
    ensures WaveRan(env, r.tasks, waves[w], order, more, st, RunWave(env, r, waves[w], st).state)
    ensures Distinct(order) && Within(r.tasks, order)
    ensures Reported(RunWave(env, r, waves[w], st).state.out) == Reported(st.out) + Reports(env, r.tasks, order, more)
    ensures forall f: nat :: f in more ==> f < |r.tasks| && env.hasAgent(r.tasks[f])
  {
    hide WaveRan, Upstream, Reports, Reported, SkipPass, Skims, RunGroups, CorrectPlan, Flat, ExecutionOrder, GroupsOf;
    WaveSkims(env, r.tasks, waves, w, st.failed);
    var skim := SkipPass(env, r.tasks, waves[w], st.failed);
    GroupsWithin(r, env.maxWorkers, skim.remaining);
    var groups := GroupsOf(r, env.maxWorkers, skim.remaining);
    FlatGroups(r, env.maxWorkers, skim.remaining);
    OrderDistinct(r, skim.remaining);
    order := ExecutionOrder(r, skim.remaining);
    var mid := st.(failed := skim.failed);
    more := GroupsExecute(env, r.tasks, groups, mid);
    var end := RunGroups(env, r.tasks, groups, mid).state;
    assert RunWave(env, r, waves[w], st).state == end;
    SkimmedRan(env, r, waves[w], skim, more, st, mid, end);
  }

  /** The part of Settled that says which tasks are where; SettledTask is the other. */
  lemma WavePlaces<Store>(env: Env<Store>, tasks: seq<TaskRef>, waves: seq<seq<nat>>, w: nat, order: seq<nat>,
                          more: set<nat>,
                          st: CrewState<Store>, end: CrewState<Store>)
    requires w < |waves| && Settled(env, tasks, waves, w, st) && WaveRan(env, tasks, waves[w], order, more, st, end)
    ensures forall i: nat :: i in end.ran ==> InFirst(waves, w + 1, i)
    ensures forall f: nat :: f in end.broke ==> f in end.ran
    ensures forall t: TaskRef :: t in end.failed ==> FromFirst(tasks, waves, w + 1, t)
  {
    hide SettledTask, Upstream, Reports, Reported;
    forall i: nat | InFirst(waves, w, i) || i in waves[w] ensures InFirst(waves, w + 1, i) {
    }
    forall t: TaskRef | t in end.failed ensures FromFirst(tasks, waves, w + 1, t) {
      if t in st.failed {
        assert FromFirst(tasks, waves, w, t);
      }
    }
  }

  lemma WaveSettlesTask<Store>(env: Env<Store>, tasks: seq<TaskRef>, waves: seq<seq<nat>>, w: nat, order: seq<nat>,
                               more: set<nat>,
                               st: CrewState<Store>, end: CrewState<Store>, i: nat)
    requires Planned(env, tasks, waves) && w < |waves| && Settled(env, tasks, waves, w, st)
    requires WaveRan(env, tasks, waves[w], order, more, st, end) && InFirst(waves, w + 1, i)
    ensures SettledTask(DepGraph(tasks, ContextsOf(env, tasks)), tasks, end, i)
  {
    hide SettledTask, Settled, WaveRan, Planned;
    var v :| 0 <= v < w + 1 && v < |waves| && i in waves[v];
    if v == w {
      WaveTaskSettled(env, tasks, waves, w, order, more, st, end, i);
    } else {
      assert InFirst(waves, w, i);
      EarlierTaskKept(env, tasks, waves, w, order, more, st, end, i);
    }
  }

  lemma WaveSettles<Store>(env: Env<Store>, r: Roster, waves: seq<seq<nat>>, w: nat, st: CrewState<Store>)
    requires !env.failFast && RosterOk(r) && Planned(env, r.tasks, waves) && w < |waves| && Within(r.tasks, waves[w])
    requires Settled(env, r.tasks, waves, w, st)
    ensures RunWave(env, r, waves[w], st).Completed?
    ensures Settled(env, r.tasks, waves, w + 1, RunWave(env, r, waves[w], st).state)
  {
    hide SettledTask, Upstream, Reports, Reported, RunWave, Planned, InFirst, FromFirst;
    var order, more := WaveExecutes(env, r, waves, w, st);
    var end := RunWave(env, r, waves[w], st).state;
    RanOnce(env, r.tasks, waves, w, order, st.ran);
    ReportsBoth(env, r.tasks, st.ran, order, st.broke, more);
    WavePlaces(env, r.tasks, waves, w, order, more, st, end);
    forall i: nat | InFirst(waves, w + 1, i) ensures SettledTask(DepGraph(r.tasks, ContextsOf(env, r.tasks)), r.tasks, end, i) {
      WaveSettlesTask(env, r.tasks, waves, w, order, more, st, end, i);
    }
  }

  lemma RanOnce<Store>(env: Env<Store>, tasks: seq<TaskRef>, waves: seq<seq<nat>>, w: nat, order: seq<nat>,
                       ran: seq<nat>)
    requires Planned(env, tasks, waves) && w < |waves| && Distinct(order) && Distinct(ran)
    requires (forall i: nat :: i in order ==> i in waves[w]) && forall i: nat :: i in ran ==> InFirst(waves, w, i)
    ensures Distinct(ran + order)
  {
    hide CorrectPlan;
    forall j, k | 0 <= j < |ran| && 0 <= k < |order| ensures ran[j] != order[k] {
      assert ran[j] in ran && order[k] in order;
      OneWaveOnly(env, tasks, waves, w, order[k]);
    }
  }

  lemma NothingSettled<Store>(env: Env<Store>, tasks: seq<TaskRef>, waves: seq<seq<nat>>, st: CrewState<Store>)
    requires st.failed == map[] && st.ran == [] && st.broke == {} && st.out == EMPTY_OUTPUT
    ensures Settled(env, tasks, waves, 0, st)
  {
    assert Reported(st.out) == [];
  }

  lemma {:induction false} WavesSettle<Store>(env: Env<Store>, r: Roster, waves: seq<seq<nat>>, w: nat,
                                              st: CrewState<Store>)
    requires !env.failFast && RosterOk(r) && Planned(env, r.tasks, waves) && AllWithin(r.tasks, waves) && w <= |waves|
    requires st.failed == map[] && st.ran == [] && st.broke == {} && st.out == EMPTY_OUTPUT
    ensures RunWaves(env, r, waves[..w], st).Completed?
    ensures Settled(env, r.tasks, waves, w, RunWaves(env, r, waves[..w], st).state)
  {
    hide Settled, RunWave, Planned;
    if w == 0 {
      NothingSettled(env, r.tasks, waves, st);
    } else {
      WavesSettle(env, r, waves, w - 1, st);
      assert waves[..w][..w - 1] == waves[..w - 1];
      WaveSettles(env, r, waves, w - 1, RunWaves(env, r, waves[..w - 1], st).state);
    }
  }

  /** Every task either ran, once, or was skipped; the skipped tasks are exactly those some other, failed task
      leads to; the failed set holds the failed tasks and everything downstream of them; and the outputs are,
      in execution order, those of the tasks an agent ran without failing. */
  ghost predicate ClosedRun<Store>(env: Env<Store>, tasks: seq<TaskRef>, g: Graph, end: CrewState<Store>) {
    && Within(tasks, end.ran) && Distinct(end.ran)
    && (forall i: nat :: i < |tasks| ==> SettledTask(g, tasks, end, i))
    && (forall t: TaskRef :: t in end.failed ==> t in tasks)
    && (forall f: nat :: f in end.broke ==> f in end.ran && f < |tasks| && env.hasAgent(tasks[f]))
    && Reported(end.out) == Reports(env, tasks, end.ran, end.broke)
  }

  lemma SettledCloses<Store>(env: Env<Store>, tasks: seq<TaskRef>, waves: seq<seq<nat>>, end: CrewState<Store>)
    requires Planned(env, tasks, waves) && Settled(env, tasks, waves, |waves|, end)
    ensures ClosedRun(env, tasks, DepGraph(tasks, ContextsOf(env, tasks)), end)
  {
    var g := DepGraph(tasks, ContextsOf(env, tasks));
    hide Reports, Reported, SettledTask, Planned, InFirst;
    forall i: nat | i < |tasks| ensures SettledTask(g, tasks, end, i) {
      TaskPlaced(env, tasks, waves, i);
    }
    forall t: TaskRef | t in end.failed ensures t in tasks {
      assert FromFirst(tasks, waves, |waves|, t);
    }
  }

  lemma TaskPlaced<Store>(env: Env<Store>, tasks: seq<TaskRef>, waves: seq<seq<nat>>, i: nat)
    requires Planned(env, tasks, waves) && i < |tasks|
    ensures InFirst(waves, |waves|, i)
  {
    assert InSomeWave(waves, i);
  }

  /** Failure closure, over a whole run without fail-fast: it completes, and it is closed. */
  lemma Closure<Store>(env: Env<Store>, r: Roster, waves: seq<seq<nat>>, st: CrewState<Store>)
    requires !env.failFast && RosterOk(r) && Planned(env, r.tasks, waves) && AllWithin(r.tasks, waves)
    requires st.failed == map[] && st.ran == [] && st.broke == {} && st.out == EMPTY_OUTPUT
    ensures RunWaves(env, r, waves, st).Completed?
    ensures ClosedRun(env, r.tasks, DepGraph(r.tasks, ContextsOf(env, r.tasks)), RunWaves(env, r, waves, st).state)
  {
    hide ClosedRun, Settled, RunWaves, Planned;
    WavesSettle(env, r, waves, |waves|, st);
    assert waves[..|waves|] == waves;
    SettledCloses(env, r.tasks, waves, RunWaves(env, r, waves, st).state);
  }

  // ----- what is saved -----

  /** Exactly the guardrail-blocked tasks leave a buffered entry although they failed. */
  lemma SavedThoughFailed<Store>(env: Env<Store>, g: Snapshot<Store>, t: TaskRef)
    ensures OwnEntry(env, g, t).Some? && OwnError(env, g, t).Some? <==>
              env.hasAgent(t) && env.autoSave && OwnEnd(env, g, t).end.Blocked?
  {
  }

  /** A task cut short in its guardrail, by a cancellation after AutoSave, leaves one too, whatever its own end. */
  lemma SavedThoughCutShort<Store>(env: Env<Store>, tasks: seq<TaskRef>, s: State<Store>, k: nat, x: Execution)
    requires |s.phase| == |s.results| == |tasks| && k < |tasks| && s.buffering && s.cancelled && env.autoSave
    requires s.phase[k].Saving? && Saves(s.phase[k].end)
    ensures exists saved: State<Store>, cut: State<Store> ::
              && Stepped(env, tasks, s, Step(k), saved) && Stepped(env, tasks, saved, CutShort(k, x), cut)
              && k < |cut.results| && cut.results[k] == Failed(Canceled)
              && Lookup(cut.stash, tasks[k]) == EndOutput(s.phase[k].end)
  {
    LookupAppend(s.stash, tasks[k], EndOutput(s.phase[k].end).value, tasks[k]);
    var saved := Next(env, tasks, s, Step(k));
    var cut := Next(env, tasks, saved, CutShort(k, x));
    assert Stepped(env, tasks, s, Step(k), saved) && Stepped(env, tasks, saved, CutShort(k, x), cut);
  }

  ghost predicate Stepped<Store>(env: Env<Store>, tasks: seq<TaskRef>, s: State<Store>, a: Action, s': State<Store>) {
    |s.phase| == |s.results| == |tasks| && Enabled(env, s, a) && s' == Next(env, tasks, s, a)
  }

  function Entries<Store>(env: Env<Store>, g: Snapshot<Store>, ts: seq<TaskRef>): seq<(TaskRef, string)> {
    if ts == [] then []
    else
      var before := Entries(env, g, ts[..|ts| - 1]);
      var t := ts[|ts| - 1];
      if OwnEntry(env, g, t).None? then before else before + [(t, OwnEntry(env, g, t).value)]
  }

  lemma {:induction false} EntriesMember<Store>(env: Env<Store>, g: Snapshot<Store>, ts: seq<TaskRef>, k: nat)
    requires k < |ts| && OwnEntry(env, g, ts[k]).Some?
    ensures (ts[k], OwnEntry(env, g, ts[k]).value) in Entries(env, g, ts)
  {
    hide OwnEntry;
    if k < |ts| - 1 {
      EntriesMember(env, g, ts[..|ts| - 1], k);
    }
  }

  /** The store of an append-only log. */
  ghost predicate Appends(env: Env<seq<(TaskRef, string)>>) {
    forall store: seq<(TaskRef, string)>, t: TaskRef, c: string :: env.put(store, t, c).store == store + [(t, c)]
  }

  lemma {:induction false} SavesEntries(env: Env<seq<(TaskRef, string)>>, g: Snapshot<seq<(TaskRef, string)>>,
                                        ts: seq<TaskRef>,
                                        saved: Saved<seq<(TaskRef, string)>>)
    requires Appends(env)
    ensures SeqSave(env, g, ts, saved).store == saved.store + Entries(env, g, ts)
  {
    hide OwnEntry;
    if ts != [] {
      SavesEntries(env, g, ts[..|ts| - 1], saved);
    }
  }

  /** A completed group commits its members' entries, in group order, a blocked member's included. */
  lemma GroupCommits(env: Env<seq<(TaskRef, string)>>, tasks: seq<TaskRef>, idxs: seq<nat>,
                     st: CrewState<seq<(TaskRef, string)>>, k: nat)
    requires Appends(env) && !env.failFast && Within(tasks, idxs) && Distinct(idxs) && k < |idxs|
    requires var t := tasks[idxs[k]];
             env.hasAgent(t) && env.autoSave && OwnEnd(env, SnapshotOf(st), t).end.Blocked?
    ensures var t := tasks[idxs[k]];
            var end := RunGroup(env, tasks, idxs, st);
            && end.Completed? && t in end.state.failed
            && end.state.store == st.store + Entries(env, SnapshotOf(st), TasksAt(tasks, idxs))
            && (t, OwnEnd(env, SnapshotOf(st), t).end.output) in end.state.store
  {
    var g := SnapshotOf(st);
    var ts := TasksAt(tasks, idxs);
    var t := tasks[idxs[k]];
    assert ts[k] == t && OwnEntry(env, g, t) == Some(OwnEnd(env, g, t).end.output);
    SavesEntries(env, g, ts, Saved(g.store, SeqWarnings(env, g, ts)));
    var saved := SeqSave(env, g, ts, Saved(g.store, SeqWarnings(env, g, ts)));
    var base := st.(outputs := SeqOutputs(env, g, ts), warnings := saved.warnings, store := saved.store);
    hide OwnEntry, SeqSave, SeqOutputs, SeqWarnings;
    FoldKeepsStore(env, g, tasks, idxs, base, k);
    EntriesMember(env, g, ts, k);
  }

  lemma {:induction false} FoldKeepsStore<Store>(env: Env<Store>, g: Snapshot<Store>, tasks: seq<TaskRef>,
                                                 idxs: seq<nat>, st: CrewState<Store>, k: nat)
    requires Within(tasks, idxs) && k < |idxs| && Broke(env, g, tasks[idxs[k]])
    ensures SeqFold(env, g, tasks, idxs, st).store == st.store && tasks[idxs[k]] in SeqFold(env, g, tasks, idxs, st).failed
  {
    hide OwnResult;
    SameStore(env, g, tasks, idxs[..|idxs| - 1], st);
    if k < |idxs| - 1 {
      FoldKeepsStore(env, g, tasks, idxs[..|idxs| - 1], st, k);
    }
  }

  lemma {:induction false} SameStore<Store>(env: Env<Store>, g: Snapshot<Store>, tasks: seq<TaskRef>, idxs: seq<nat>,
                                            st: CrewState<Store>)
    requires Within(tasks, idxs)
    ensures SeqFold(env, g, tasks, idxs, st).store == st.store
  {
    hide OwnResult;
    if idxs != [] {
      SameStore(env, g, tasks, idxs[..|idxs| - 1], st);
    }
  }
}
