/** The async executor (crew.go: runAsyncWaves, runWaveGroup; memory_policy.go: the per-group buffer).
  *
  * `RunWaves` below is the sequential reference: groups in order, and inside a group one task after another
  * against the group's starting snapshot. The class runs groups concurrently under an arbitrary scheduler.
  */
module AsyncCrew {
  import opened Common
  import opened Digraph
  import opened Kahn
  import opened Schedule
  import opened Facts
  import opened TaskGroup
  import WaveOrder

  datatype TaskOutput = TaskOutput(index: nat, output: string, facts: seq<Fact>, warnings: seq<string>)

  datatype CrewOutput = CrewOutput(final: string, tasksOutput: seq<TaskOutput>, facts: seq<Fact>, warnings: seq<string>)

  const EMPTY_OUTPUT := CrewOutput("", [], [], [])

  type FailedTasks = map<TaskRef, TaskError>

  /** What a run has produced; `ran` and `broke` record which tasks were executed and which of those failed. */
  datatype CrewState<!Store> = CrewState(
    outputs: Outputs, warnings: Warnings, store: Store, failed: FailedTasks, out: CrewOutput, ran: seq<nat>, broke: set<nat>)

  /** The crew's tasks: pointers, and which are marked Async. */
  datatype Roster = Roster(tasks: seq<TaskRef>, async: seq<bool>)

  ghost predicate RosterOk(r: Roster) {
    |r.async| == |r.tasks|
  }

  predicate Within(tasks: seq<TaskRef>, idxs: seq<nat>) {
    forall k :: 0 <= k < |idxs| ==> idxs[k] < |tasks|
  }

  function TasksAt(tasks: seq<TaskRef>, idxs: seq<nat>): (ts: seq<TaskRef>)
    requires Within(tasks, idxs)
    ensures |ts| == |idxs| && forall k :: 0 <= k < |idxs| ==> ts[k] == tasks[idxs[k]]
  {
    seq(|idxs|, k requires 0 <= k < |idxs| => tasks[idxs[k]])
  }

  // ----- the sequential reference of a group -----

  function SeqOutputs<Store>(env: Env<Store>, g: Snapshot<Store>, ts: seq<TaskRef>): Outputs {
    if ts == [] then g.outputs
    else
      var before := SeqOutputs(env, g, ts[..|ts| - 1]);
      var t := ts[|ts| - 1];
      var row := RowAfter(env, g, t);
      if row.output.Some? then before[t := row.output.value] else before
  }

  function SeqWarnings<Store>(env: Env<Store>, g: Snapshot<Store>, ts: seq<TaskRef>): Warnings {
    if ts == [] then g.warnings
    else
      var before := SeqWarnings(env, g, ts[..|ts| - 1]);
      var t := ts[|ts| - 1];
      var row := RowAfter(env, g, t);
      if row.warnings.Some? then before[t := row.warnings.value] else before
  }

  datatype Saved<!Store> = Saved(store: Store, warnings: Warnings)

  /** Put the entries of the group, in group order. */
  function SeqSave<Store>(env: Env<Store>, g: Snapshot<Store>, ts: seq<TaskRef>, saved: Saved<Store>): Saved<Store> {
    if ts == [] then saved
    else
      var before := SeqSave(env, g, ts[..|ts| - 1], saved);
      var t := ts[|ts| - 1];
      var entry := OwnEntry(env, g, t);
      if entry.None? then before
      else
        var put := env.put(before.store, t, entry.value);
        Saved(put.store, Warn(before.warnings, t, put.warnings))
  }

  predicate Broke<Store>(env: Env<Store>, g: Snapshot<Store>, t: TaskRef) {
    OwnResult(env, g, t).Failed?
  }

  /** The fold of one finished task into the crew output and the failed set. */
  function FoldTask<Store>(result: TaskResult, i: nat, t: TaskRef, warnings: seq<string>,
                           st: CrewState<Store>): CrewState<Store> {
    match result
    case Empty => st.(ran := st.ran + [i])
    case Failed(err) => st.(ran := st.ran + [i], broke := st.broke + {i}, failed := st.failed[t := err])
    case Output(output, facts) =>
      st.(ran := st.ran + [i],
          out := CrewOutput(output, st.out.tasksOutput + [TaskOutput(i, output, facts, warnings)],
                            Dedup(st.out.facts, facts), st.out.warnings + warnings))
  }

  function SeqFold<Store>(env: Env<Store>, g: Snapshot<Store>, tasks: seq<TaskRef>, idxs: seq<nat>,
                          st: CrewState<Store>): CrewState<Store>
    requires Within(tasks, idxs)
  {
    if idxs == [] then st
    else
      var i := idxs[|idxs| - 1];
      FoldTask(OwnResult(env, g, tasks[i]), i, tasks[i], WarningsOf(st.warnings, tasks[i]), SeqFold(env, g, tasks, idxs[..|idxs| - 1], st))
  }

  function SnapshotOf<Store>(st: CrewState<Store>): Snapshot<Store> {
    Snapshot(st.outputs, st.warnings, st.store)
  }

  datatype RunEnd<!Store> =
    | Completed(state: CrewState<Store>)
    | Aborted(at: CrewState<Store>, group: seq<nat>)

  /** One group, one task after another against the snapshot; then the barrier's commit and fold. */
  function RunGroup<Store>(env: Env<Store>, tasks: seq<TaskRef>, idxs: seq<nat>, st: CrewState<Store>): RunEnd<Store>
    requires Within(tasks, idxs)
  {
    var g := SnapshotOf(st);
    var ts := TasksAt(tasks, idxs);
    if env.failFast && exists k :: 0 <= k < |ts| && OwnError(env, g, ts[k]).Some? then Aborted(st, idxs)
    else
      var saved := SeqSave(env, g, ts, Saved(g.store, SeqWarnings(env, g, ts)));
      Completed(SeqFold(env, g, tasks, idxs, st.(outputs := SeqOutputs(env, g, ts), warnings := saved.warnings, store := saved.store)))
  }

  predicate AllWithin(tasks: seq<TaskRef>, groups: seq<seq<nat>>) {
    forall k :: 0 <= k < |groups| ==> Within(tasks, groups[k])
  }

  function RunGroups<Store>(env: Env<Store>, tasks: seq<TaskRef>, groups: seq<seq<nat>>,
                            st: CrewState<Store>): RunEnd<Store>
    requires AllWithin(tasks, groups)
  {
    if groups == [] then Completed(st)
    else
      var before := RunGroups(env, tasks, groups[..|groups| - 1], st);
      if before.Aborted? then before else RunGroup(env, tasks, groups[|groups| - 1], before.state)
  }

  // ----- waves: skips, partition, chunks -----

  /** The first failed dependency in Context order, wrapped. */
  function FailedUpstream(failed: FailedTasks, context: seq<TaskRef>): Option<TaskError> {
    if context == [] then None
    else if context[0] in failed then Some(DependencyFailed(context[0], failed[context[0]]))
    else FailedUpstream(failed, context[1..])
  }

  datatype Skim = Skim(failed: FailedTasks, remaining: seq<nat>)

  function SkipPass<Store>(env: Env<Store>, tasks: seq<TaskRef>, wave: seq<nat>, failed: FailedTasks): Skim
    requires Within(tasks, wave)
  {
    if wave == [] then Skim(failed, [])
    else
      var i := wave[|wave| - 1];
      var before := SkipPass(env, tasks, wave[..|wave| - 1], failed);
      var err := FailedUpstream(before.failed, env.context(tasks[i]));
      if err.Some? then Skim(before.failed[tasks[i] := err.value], before.remaining)
      else Skim(before.failed, before.remaining + [i])
  }

  function Pick(idxs: seq<nat>, async: seq<bool>, want: bool): (r: seq<nat>)
    ensures forall i :: i in r <==> i in idxs && (i < |async| && async[i]) == want
  {
    if idxs == [] then []
    else
      assert idxs == idxs[..|idxs| - 1] + [idxs[|idxs| - 1]];
      var i := idxs[|idxs| - 1];
      var before := Pick(idxs[..|idxs| - 1], async, want);
      if (i < |async| && async[i]) == want then before + [i] else before
  }

  /** The Async subset in chunks of at most n (n = 0: one chunk). */
  function Chunks(idxs: seq<nat>, n: nat): (groups: seq<seq<nat>>)
    ensures forall k :: 0 <= k < |groups| ==> groups[k] != [] && forall i :: i in groups[k] ==> i in idxs
    decreases |idxs|
  {
    if idxs == [] then []
    else if n == 0 || |idxs| <= n then [idxs]
    else [idxs[..n]] + Chunks(idxs[n..], n)
  }

  function Singles(idxs: seq<nat>): (groups: seq<seq<nat>>)
    ensures |groups| == |idxs| && forall k :: 0 <= k < |idxs| ==> groups[k] == [idxs[k]]
  {
    seq(|idxs|, k requires 0 <= k < |idxs| => [idxs[k]])
  }

  function GroupsOf(r: Roster, maxWorkers: nat, remaining: seq<nat>): seq<seq<nat>> {
    Chunks(Pick(remaining, r.async, true), maxWorkers) + Singles(Pick(remaining, r.async, false))
  }

  lemma {:induction false} SkipPassSubset<Store>(env: Env<Store>, tasks: seq<TaskRef>, wave: seq<nat>,
                                                 failed: FailedTasks)
    requires Within(tasks, wave)
    ensures var remaining := SkipPass(env, tasks, wave, failed).remaining;
            Within(tasks, remaining) && forall i: nat :: i in remaining ==> i in wave
  {
    if wave != [] {
      SkipPassSubset(env, tasks, wave[..|wave| - 1], failed);
    }
  }

  lemma GroupsWithin(r: Roster, maxWorkers: nat, remaining: seq<nat>)
    requires Within(r.tasks, remaining)
    ensures AllWithin(r.tasks, GroupsOf(r, maxWorkers, remaining))
  {
    var groups := GroupsOf(r, maxWorkers, remaining);
    var chunks := Chunks(Pick(remaining, r.async, true), maxWorkers);
    forall k | 0 <= k < |groups| ensures Within(r.tasks, groups[k]) {
      forall j | 0 <= j < |groups[k]| ensures groups[k][j] < |r.tasks| {
        var i := groups[k][j];
        assert i in groups[k] && (k < |chunks| ==> groups[k] == chunks[k]);
        assert i in remaining;
      }
    }
  }

  function RunWave<Store>(env: Env<Store>, r: Roster, wave: seq<nat>, st: CrewState<Store>): RunEnd<Store>
    requires Within(r.tasks, wave)
  {
    var skim := SkipPass(env, r.tasks, wave, st.failed);
    SkipPassSubset(env, r.tasks, wave, st.failed);
    GroupsWithin(r, env.maxWorkers, skim.remaining);
    RunGroups(env, r.tasks, GroupsOf(r, env.maxWorkers, skim.remaining), st.(failed := skim.failed))
  }

  function RunWaves<Store>(env: Env<Store>, r: Roster, waves: seq<seq<nat>>, st: CrewState<Store>): RunEnd<Store>
    requires AllWithin(r.tasks, waves)
  {
    if waves == [] then Completed(st)
    else
      var before := RunWaves(env, r, waves[..|waves| - 1], st);
      if before.Aborted? then before else RunWave(env, r, waves[|waves| - 1], before.state)
  }

  // ----- the concurrent tables are the sequential ones -----

  lemma MapsEqual<V>(a: map<TaskRef, V>, b: map<TaskRef, V>)
    requires forall t: TaskRef :: Get(a, t) == Get(b, t)
    ensures a == b
  {
    forall t: TaskRef ensures (t in a <==> t in b) && (t in a ==> a[t] == b[t]) {
      assert Get(a, t) == Get(b, t);
    }
  }

  lemma {:induction false} SeqTables<Store>(env: Env<Store>, g: Snapshot<Store>, ts: seq<TaskRef>, u: TaskRef)
    ensures Get(SeqOutputs(env, g, ts), u) == if u in ts then RowAfter(env, g, u).output else Get(g.outputs, u)
    ensures Get(SeqWarnings(env, g, ts), u) == if u in ts then RowAfter(env, g, u).warnings else Get(g.warnings, u)
  {
    hide RowAfter;
    if ts != [] {
      var front := ts[..|ts| - 1];
      SeqTables(env, g, front, u);
      assert ts == front + [ts[|ts| - 1]];
      RowKeeps(env, g, u);
    }
  }

  lemma RowKeeps<Store>(env: Env<Store>, g: Snapshot<Store>, t: TaskRef)
    ensures RowAfter(env, g, t).output.None? ==> Get(g.outputs, t).None?
    ensures RowAfter(env, g, t).warnings.None? ==> Get(g.warnings, t).None?
  {
  }

  lemma GroupTables<Store>(env: Env<Store>, g: Snapshot<Store>, ts: seq<TaskRef>, s: State<Store>)
    requires AsIfAlone(env, g, ts, s)
    ensures s.outputs == SeqOutputs(env, g, ts) && s.warnings == SeqWarnings(env, g, ts)
    ensures forall t: TaskRef :: t in ts ==> Lookup(s.stash, t) == OwnEntry(env, g, t)
  {
    forall t: TaskRef
      ensures Get(s.outputs, t) == Get(SeqOutputs(env, g, ts), t)
      ensures Get(s.warnings, t) == Get(SeqWarnings(env, g, ts), t)
      ensures t in ts ==> Lookup(s.stash, t) == OwnEntry(env, g, t)
    {
      TableRow(env, g, ts, s, t);
      SeqTables(env, g, ts, t);
    }
    MapsEqual(s.outputs, SeqOutputs(env, g, ts));
    MapsEqual(s.warnings, SeqWarnings(env, g, ts));
  }

  lemma TableRow<Store>(env: Env<Store>, g: Snapshot<Store>, ts: seq<TaskRef>, s: State<Store>, t: TaskRef)
    requires AsIfAlone(env, g, ts, s)
    ensures RowOf(s, t) == if t in ts then RowAfter(env, g, t) else RowBefore(g, t)
    ensures t in ts ==> Lookup(s.stash, t) == OwnEntry(env, g, t)
  {
    if t in ts {
      var k: nat :| k < |ts| && ts[k] == t;
      assert Finished(env, g, s, k, t);
      assert RowAfter(env, g, t).entry == OwnEntry(env, g, t);
      assert RowOf(s, t).entry == Lookup(s.stash, t);
    }
  }

  // ----- commitMemoryBuffer -----

  /** Put the stashed entries in the order of ts. */
  function Commit<Store>(env: Env<Store>, stash: seq<(TaskRef, string)>, ts: seq<TaskRef>,
                         saved: Saved<Store>): Saved<Store> {
    if ts == [] then saved
    else
      var before := Commit(env, stash, ts[..|ts| - 1], saved);
      var t := ts[|ts| - 1];
      var entry := Lookup(stash, t);
      if entry.None? then before
      else
        var put := env.put(before.store, t, entry.value);
        Saved(put.store, Warn(before.warnings, t, put.warnings))
  }

  lemma {:induction false} CommitIsSeqSave<Store>(env: Env<Store>, g: Snapshot<Store>, stash: seq<(TaskRef, string)>,
                                                  ts: seq<TaskRef>, saved: Saved<Store>)
    requires forall t: TaskRef :: t in ts ==> Lookup(stash, t) == OwnEntry(env, g, t)
    ensures Commit(env, stash, ts, saved) == SeqSave(env, g, ts, saved)
  {
    if ts != [] {
      CommitIsSeqSave(env, g, stash, ts[..|ts| - 1], saved);
      assert ts[|ts| - 1] in ts;
    }
  }

  lemma {:induction false} CommitNothing<Store>(env: Env<Store>, stash: seq<(TaskRef, string)>, ts: seq<TaskRef>,
                                                saved: Saved<Store>)
    requires forall t: TaskRef :: t in ts ==> Lookup(stash, t).None?
    ensures Commit(env, stash, ts, saved) == saved
  {
    if ts != [] {
      CommitNothing(env, stash, ts[..|ts| - 1], saved);
      assert ts[|ts| - 1] in ts;
    }
  }

  /** Everything stashed is an AutoSave entry. */
  lemma NothingSaved<Store>(env: Env<Store>, g: Snapshot<Store>, ts: seq<TaskRef>, stash: seq<(TaskRef, string)>)
    requires forall t: TaskRef :: t in ts ==> Lookup(stash, t) == OwnEntry(env, g, t)
    ensures !env.autoSave || stash == [] ==> forall t: TaskRef :: t in ts ==> Lookup(stash, t).None?
  {
  }

  // ----- the executor -----

  /** The groups of a wave are scheduled independently of one another. */
  ghost predicate SchedulesWave<Store(!new)>(env: Env<Store>, schedulers: nat -> State<Store> -> Action) {
    forall group: nat :: Schedules(env, schedulers(group))
  }

  /** And so are the waves of a run. */
  ghost predicate SchedulesRun<Store(!new)>(env: Env<Store>, schedulers: nat -> nat -> State<Store> -> Action) {
    forall wave: nat :: SchedulesWave(env, schedulers(wave))
  }

  datatype GroupError = GroupError(index: nat, err: TaskError)

  /** How a group or a run may end, against the sequential reference. */
  ghost predicate Matches<Store>(env: Env<Store>, tasks: seq<TaskRef>, want: RunEnd<Store>, st: CrewState<Store>,
                                 err: Option<GroupError>) {
    match want
    case Completed(end) => err.None? && st == end
    case Aborted(at, idxs) =>
      && err.Some? && err.value.index < |idxs| && Within(tasks, idxs)
      && OwnError(env, SnapshotOf(at), tasks[idxs[err.value.index]]) == Some(err.value.err)
      && Abandoned(tasks, idxs, at, st, err.value.err)
  }

  /** The group left nothing behind but marks on its own members: each is marked failed with e, and only their
      outputs and warnings may differ. */
  ghost predicate Abandoned<Store>(tasks: seq<TaskRef>, idxs: seq<nat>, at: CrewState<Store>, st: CrewState<Store>,
                                   e: TaskError)
    requires Within(tasks, idxs)
  {
    && st.store == at.store && st.out == at.out && st.ran == at.ran && st.broke == at.broke
    && Marked(TasksAt(tasks, idxs), at.failed, st.failed, e)
    && forall t: TaskRef :: t !in TasksAt(tasks, idxs) ==>
         Get(st.outputs, t) == Get(at.outputs, t) && Get(st.warnings, t) == Get(at.warnings, t)
  }

  ghost predicate Marked(ts: seq<TaskRef>, before: FailedTasks, after: FailedTasks, e: TaskError) {
    forall t: TaskRef :: Get(after, t) == if t in ts then Some(e) else Get(before, t)
  }

  class Crew<Store(!new)> {
    const env: Env<Store>
    var store: Store
    var outputs: Outputs
    var warnings: Warnings
    var failedTasks: FailedTasks
    var buffering: bool
    var memBuf: seq<(TaskRef, string)>
    ghost var ran: seq<nat>
    ghost var broke: set<nat>

    constructor (env: Env<Store>, store: Store, outputs: Outputs, warnings: Warnings)
      ensures this.env == env && this.store == store && this.outputs == outputs && this.warnings == warnings
      ensures failedTasks == map[] && !buffering && memBuf == [] && ran == [] && broke == {}
    {
      this.env, this.store, this.outputs, this.warnings := env, store, outputs, warnings;
      failedTasks, buffering, memBuf, ran, broke := map[], false, [], [], {};
    }

    ghost function View(out: CrewOutput): CrewState<Store>
      reads this
    {
      CrewState(outputs, warnings, store, failedTasks, out, ran, broke)
    }

    method BeginMemoryBuffer()
      modifies this`buffering, this`memBuf
      ensures buffering && memBuf == []
    {
      buffering, memBuf := true, [];
    }

    method DiscardMemoryBuffer()
      modifies this`buffering, this`memBuf
      ensures !buffering && memBuf == []
    {
      buffering, memBuf := false, [];
    }

    method CommitMemoryBuffer(tasks: seq<TaskRef>)
      modifies this`buffering, this`memBuf, this`store, this`warnings
      ensures !buffering && memBuf == []
      ensures var saved := Saved(old(store), old(warnings));
              Saved(store, warnings) == if env.autoSave then Commit(env, old(memBuf), tasks, saved) else saved
    {
      var buf := memBuf;
      memBuf, buffering := [], false;
      if !env.autoSave || |buf| == 0 {
        CommitNothing(env, [], tasks, Saved(store, warnings));
        return;
      }
      var byTask: map<TaskRef, string> := map[];
      for k := 0 to |buf|
        invariant forall t: TaskRef :: Get(byTask, t) == Lookup(buf[..k], t)
      {
        assert buf[..k + 1] == buf[..k] + [buf[k]];
        assert buf[k] == (buf[k].0, buf[k].1);
        byTask := byTask[buf[k].0 := buf[k].1];
        forall t: TaskRef ensures Get(byTask, t) == Lookup(buf[..k + 1], t) {
          LookupAppend(buf[..k], buf[k].0, buf[k].1, t);
        }
      }
      assert buf[..|buf|] == buf;
      for k := 0 to |tasks|
        invariant memBuf == [] && !buffering
        invariant Saved(store, warnings) == Commit(env, buf, tasks[..k], Saved(old(store), old(warnings)))
      {
        var t := tasks[k];
        assert tasks[..k + 1][..k] == tasks[..k];
        assert Get(byTask, t) == Lookup(buf, t);
        if t !in byTask {
          continue;
        }
        var put := env.put(store, t, byTask[t]);
        store, warnings := put.store, Warn(warnings, t, put.warnings);
      }
      assert tasks[..|tasks|] == tasks;
    }

    /** Runs the group under the scheduler until every worker has joined. */
    method RunTaskGroup(tasks: seq<TaskRef>, scheduler: State<Store> -> Action)
      returns (results: seq<TaskResult>, firstErr: Option<(nat, TaskError)>, ghost s: State<Store>)
      requires Independent(env, tasks) && Schedules(env, scheduler)
      requires buffering && memBuf == []
      modifies this`outputs, this`warnings, this`memBuf, this`store
      ensures Inv(env, Snapshot(old(outputs), old(warnings), old(store)), tasks, s) && AllJoined(s)
      ensures results == s.results && firstErr == s.firstErr
      ensures outputs == s.outputs && warnings == s.warnings && memBuf == s.stash && store == s.store == old(store)
    {
      hide Inv, Next, Enabled, AllJoined, Start;
      ghost var g := Snapshot(outputs, warnings, store);
      var state := Start(tasks, outputs, warnings, buffering, memBuf, store);
      StartInv(env, g, tasks);
      InvParts(env, g, tasks, state);
      var joined := Joins(state.phase);
      while !joined
        invariant Inv(env, g, tasks, state)
        invariant joined <==> AllJoined(state)
        decreases Remaining(state)
      {
        InvParts(env, g, tasks, state);
        var a := scheduler(state);
        NextInv(env, g, tasks, state, a);
        NextShrinks(env, tasks, state, a);
        state := Next(env, tasks, state, a);
        InvParts(env, g, tasks, state);
        joined := Joins(state.phase);
      }
      InvParts(env, g, tasks, state);
      outputs, warnings, memBuf, store := state.outputs, state.warnings, state.stash, state.store;
      return state.results, state.firstErr, state;
    }

    method MarkFailed(task: TaskRef, err: TaskError)
      modifies this`failedTasks
      ensures failedTasks == old(failedTasks)[task := err]
    {
      failedTasks := failedTasks[task := err];
    }

    /** Whoever cancels what: an error means fail-fast and an abandoned group, and no error that every member ran.
        `late`: the caller had cancelled before the first error was recorded. */
    method RunWaveGroup(tasks: seq<TaskRef>, idxs: seq<nat>, scheduler: State<Store> -> Action, out: CrewOutput)
      returns (out': CrewOutput, err: Option<GroupError>, ghost outside: bool, ghost late: bool)
      requires Within(tasks, idxs) && Independent(env, TasksAt(tasks, idxs)) && Schedules(env, scheduler)
      modifies this
      ensures !outside && idxs != [] ==> Matches(env, tasks, RunGroup(env, tasks, idxs, old(View(out))), View(out'), err)
      ensures err.Some? ==> env.failFast && Abandoned(tasks, idxs, old(View(out)), View(out'), err.value.err)
      ensures err.Some? && !late ==>
                err.value.index < |idxs|
                && OwnError(env, old(SnapshotOf(View(out))), tasks[idxs[err.value.index]]) == Some(err.value.err)
      ensures err.None? ==> ran == old(ran) + idxs
      ensures late ==> outside
      ensures idxs == [] ==> View(out') == old(View(out)) && err.None?
      ensures idxs != [] ==> !buffering && memBuf == []
    {
      hide Independent, Inv, Matches, RunGroup, AsIfAlone, OwnError, OwnResult, SomeoneFails, SeqOutputs, SeqWarnings, SeqSave, Commit, FoldSlots, NoneFailed, Abandoned, Marked;
      outside, late := false, false;
      if |idxs| == 0 {
        return out, None, false, false;
      }
      ghost var st := View(out);
      ghost var g := SnapshotOf(st);
      var groupTasks := TasksAt(tasks, idxs);
      BeginMemoryBuffer();
      ghost var s: State<Store>;
      var results, firstErr;
      results, firstErr, s := RunTaskGroup(groupTasks, scheduler);
      outside, late := s.outside, s.late;
      InvParts(env, g, groupTasks, s);
      JoinedOutcome(env, g, groupTasks, s);
      if firstErr.Some? && env.failFast {
        DiscardMemoryBuffer();
        MarkAll(groupTasks, firstErr.value.1);
        GroupAbandoned(env, tasks, idxs, st, s, firstErr.value.1, View(out));
        if !outside {
          GroupAborts(env, tasks, idxs, st, firstErr.value.0, firstErr.value.1, View(out));
        }
        return out, Some(GroupError(firstErr.value.0, firstErr.value.1)), outside, late;
      }
      out', err := FoldGroup(tasks, idxs, results, out, st, s);
    }

    /** The barrier of a group that goes on: commit the buffer and fold the slots. */
    method FoldGroup(tasks: seq<TaskRef>, idxs: seq<nat>, results: seq<TaskResult>, out: CrewOutput,
                     ghost st: CrewState<Store>, ghost s: State<Store>)
      returns (out': CrewOutput, err: Option<GroupError>)
      requires Within(tasks, idxs) && |results| == |idxs| && results == s.results && memBuf == s.stash
      requires View(out) == st.(outputs := s.outputs, warnings := s.warnings)
      requires env.failFast ==> forall k: nat :: k < |results| ==> !results[k].Failed?
      requires !s.outside ==> AsIfAlone(env, SnapshotOf(st), TasksAt(tasks, idxs), s)
      requires !s.outside && env.failFast ==> !SomeoneFails(env, SnapshotOf(st), TasksAt(tasks, idxs))
      modifies this
      ensures err.None? && ran == st.ran + idxs && !buffering && memBuf == []
      ensures !s.outside ==> Matches(env, tasks, RunGroup(env, tasks, idxs, st), View(out'), err)
    {
      hide Matches, RunGroup, AsIfAlone, SomeoneFails, SeqOutputs, SeqWarnings, SeqSave, Commit, FoldSlots, NoneFailed;
      ghost var g := SnapshotOf(st);
      var groupTasks := TasksAt(tasks, idxs);
      if !s.outside {
        GroupTables(env, g, groupTasks, s);
      }
      CommitMemoryBuffer(groupTasks);
      ghost var base := st.(outputs := outputs, warnings := warnings, store := store);
      if env.failFast {
        NoLateError(results);
      }
      out', err := FoldResults(tasks, idxs, results, out);
      FoldSlotsRan(tasks, idxs, results, base);
      if !s.outside {
        GroupSaved(env, g, groupTasks, s.stash, Saved(g.store, s.warnings));
        GroupCompletes(env, tasks, idxs, st, base);
        FoldIsSeq(env, g, tasks, idxs, s, base);
      }
    }

    method MarkAll(tasks: seq<TaskRef>, err: TaskError)
      modifies this`failedTasks
      ensures Marked(tasks, old(failedTasks), failedTasks, err)
    {
      for k := 0 to |tasks|
        invariant Marked(tasks[..k], old(failedTasks), failedTasks, err)
      {
        assert tasks[..k + 1] == tasks[..k] + [tasks[k]];
        MarkFailed(tasks[k], err);
      }
      assert tasks[..|tasks|] == tasks;
    }

    /** Leave out, and mark failed, the tasks with a failed dependency. */
    method SkipFailed(tasks: seq<TaskRef>, wave: seq<nat>, done: array<bool>) returns (remaining: seq<nat>)
      requires Within(tasks, wave) && Distinct(wave) && done.Length == |tasks|
      requires forall i: nat :: i in wave ==> i < |tasks| && !done[i]
      modifies this`failedTasks, done
      ensures Skim(failedTasks, remaining) == SkipPass(env, tasks, wave, old(failedTasks))
      ensures DoneWithin(done[..], old(done[..]), wave)
    {
      remaining := [];
      for k := 0 to |wave|
        invariant Skim(failedTasks, remaining) == SkipPass(env, tasks, wave[..k], old(failedTasks))
        invariant forall i :: 0 <= i < |tasks| && done[i] ==> old(done[i]) || i in wave[..k]
      {
        var i := wave[k];
        assert i in wave && i !in wave[..k];
        assert wave[..k + 1][..k] == wave[..k] && wave[..k + 1] == wave[..k] + [i];
        if done[i] {
          continue;
        }
        var err := FailedUpstream(failedTasks, env.context(tasks[i]));
        if err.Some? {
          MarkFailed(tasks[i], err.value);
          done[i] := true;
          continue;
        }
        remaining := remaining + [i];
      }
      assert wave[..|wave|] == wave;
    }

    static method Partition(r: Roster, remaining: seq<nat>) returns (asyncIdx: seq<nat>, syncIdx: seq<nat>)
      requires RosterOk(r) && Within(r.tasks, remaining)
      ensures asyncIdx == Pick(remaining, r.async, true) && syncIdx == Pick(remaining, r.async, false)
    {
      asyncIdx, syncIdx := [], [];
      for k := 0 to |remaining|
        invariant asyncIdx == Pick(remaining[..k], r.async, true) && syncIdx == Pick(remaining[..k], r.async, false)
      {
        var i := remaining[k];
        assert remaining[..k + 1][..k] == remaining[..k];
        if r.async[i] {
          asyncIdx := asyncIdx + [i];
        } else {
          syncIdx := syncIdx + [i];
        }
      }
      assert remaining[..|remaining|] == remaining;
    }

    /** The Async subset of a wave, in chunks. */
    method RunChunks(r: Roster, ghost wave: seq<nat>, ghost remaining: seq<nat>, asyncIdx: seq<nat>, done: array<bool>,
                     schedulers: nat -> State<Store> -> Action, out: CrewOutput)
      returns (out': CrewOutput, err: Option<GroupError>, ghost outside: bool, ran: nat)
      requires RosterOk(r) && done.Length == |r.tasks| && SchedulesWave(env, schedulers)
      requires Within(r.tasks, remaining) && Distinct(remaining) && asyncIdx == Pick(remaining, r.async, true)
      requires WaveIndependent(env, r.tasks, wave) && forall i: nat :: i in remaining ==> i in wave
      modifies this, done
      ensures AllWithin(r.tasks, GroupsOf(r, env.maxWorkers, remaining))
      ensures !outside ==>
                AtGroup(env, r.tasks, GroupsOf(r, env.maxWorkers, remaining), |Chunks(asyncIdx, env.maxWorkers)|, old(View(out)), View(out'), err)
      ensures if err.Some? then env.failFast else ran == |Chunks(asyncIdx, env.maxWorkers)|
      ensures DoneWithin(done[..], old(done[..]), wave)
    {
      hide AtGroup, Matches, RunGroup, RunGroups, Independent, WaveIndependent, Schedules, Distinct, Pick, Chunks;
      ghost var st := View(out);
      GroupsWithin(r, env.maxWorkers, remaining);
      ghost var groups := GroupsOf(r, env.maxWorkers, remaining);
      ghost var chunks := Chunks(asyncIdx, env.maxWorkers);
      out', outside, err := out, false, None;
      ran := 0;
      var start := 0;
      NoGroups(env, r.tasks, groups, st);
      assert asyncIdx[0..] == asyncIdx && chunks[0..] == chunks;
      while start < |asyncIdx|
        invariant 0 <= start <= |asyncIdx| && ran <= |chunks|
        invariant chunks[ran..] == Chunks(asyncIdx[start..], env.maxWorkers)
        invariant err.None? && (!outside ==> AtGroup(env, r.tasks, groups, ran, st, View(out'), None))
        invariant DoneWithin(done[..], old(done[..]), wave)
      {
        var end := |asyncIdx|;
        if env.maxWorkers > 0 && start + env.maxWorkers < end {
          end := start + env.maxWorkers;
        }
        var chunk := asyncIdx[start..end];
        NextChunk(asyncIdx, start, end, env.maxWorkers);
        assert chunks[ran] == chunks[ran..][0] && chunks[ran + 1..] == chunks[ran..][1..];
        assert groups[ran] == chunks[ran] == chunk;
        GroupReady(env, r, wave, remaining, ran);
        ghost var before := View(out');
        ghost var o;
        ghost var late;
        assert Schedules(env, schedulers(ran));
        out', err, o, late := RunWaveGroup(r.tasks, chunk, schedulers(ran), out');
        outside := outside || o;
        if !outside {
          NextGroup(env, r.tasks, groups, ran, |chunks|, st, before, View(out'), err);
        }
        if err.Some? {
          return;
        }
        MarkDone(r, wave, chunk, done, out');
        start := end;
        ran := ran + 1;
      }
      NoChunks(env.maxWorkers);
      assert asyncIdx[start..] == [] && chunks[ran..] == [];
    }

    /** The other tasks of a wave, one at a time. */
    method RunSingles(r: Roster, ghost wave: seq<nat>, ghost remaining: seq<nat>, syncIdx: seq<nat>, done: array<bool>,
                      first: nat, schedulers: nat -> State<Store> -> Action, out: CrewOutput,
                      ghost st: CrewState<Store>)
      returns (out': CrewOutput, err: Option<GroupError>, ghost outside: bool)
      requires RosterOk(r) && done.Length == |r.tasks| && SchedulesWave(env, schedulers)
      requires Within(r.tasks, remaining) && Distinct(remaining) && syncIdx == Pick(remaining, r.async, false)
      requires WaveIndependent(env, r.tasks, wave) && forall i: nat :: i in remaining ==> i in wave
      requires AllWithin(r.tasks, GroupsOf(r, env.maxWorkers, remaining))
      requires first + |syncIdx| == |GroupsOf(r, env.maxWorkers, remaining)|
      modifies this, done
      ensures err.Some? ==> env.failFast
      ensures var groups := GroupsOf(r, env.maxWorkers, remaining);
              !outside && old(AtGroup(env, r.tasks, groups, first, st, View(out), None)) ==>
                AtGroup(env, r.tasks, groups, |groups|, st, View(out'), err)
      ensures DoneWithin(done[..], old(done[..]), wave)
    {
      hide AtGroup, Matches, RunGroup, RunGroups, Independent, WaveIndependent, Schedules, Distinct, Pick, Chunks;
      ghost var groups := GroupsOf(r, env.maxWorkers, remaining);
      ghost var ready := AtGroup(env, r.tasks, groups, first, st, View(out), None);
      out', outside, err := out, false, None;
      for k := 0 to |syncIdx|
        invariant err.None? && (!outside && ready ==> AtGroup(env, r.tasks, groups, first + k, st, View(out'), None))
        invariant DoneWithin(done[..], old(done[..]), wave)
      {
        assert groups[first + k] == [syncIdx[k]];
        GroupReady(env, r, wave, remaining, first + k);
        ghost var before := View(out');
        ghost var o;
        ghost var late;
        assert Schedules(env, schedulers(first + k));
        out', err, o, late := RunWaveGroup(r.tasks, [syncIdx[k]], schedulers(first + k), out');
        outside := outside || o;
        if !outside && ready {
          NextGroup(env, r.tasks, groups, first + k, |groups|, st, before, View(out'), err);
        }
        if err.Some? {
          return;
        }
        assert [syncIdx[k]][0] in [syncIdx[k]];
        done[syncIdx[k]] := true;
      }
    }

    method MarkDone(r: Roster, ghost wave: seq<nat>, chunk: seq<nat>, done: array<bool>, ghost out: CrewOutput)
      requires done.Length == |r.tasks| && Within(r.tasks, chunk) && forall i: nat :: i in chunk ==> i in wave
      modifies done
      ensures View(out) == old(View(out)) && DoneWithin(done[..], old(done[..]), wave)
    {
      for k := 0 to |chunk|
        invariant DoneWithin(done[..], old(done[..]), wave)
      {
        assert chunk[k] in chunk;
        done[chunk[k]] := true;
      }
    }

    /** One wave: skips, then the Async subset in chunks, then each other task alone. */
    method RunOneWave(r: Roster, wave: seq<nat>, done: array<bool>, schedulers: nat -> State<Store> -> Action, out: CrewOutput)
      returns (out': CrewOutput, err: Option<GroupError>, ghost outside: bool)
      requires RosterOk(r) && Within(r.tasks, wave) && Distinct(wave) && done.Length == |r.tasks|
      requires forall i: nat :: i in wave ==> i < |r.tasks| && !done[i]
      requires WaveIndependent(env, r.tasks, wave) && SchedulesWave(env, schedulers)
      modifies this, done
      ensures err.Some? ==> env.failFast
      ensures !outside ==> Matches(env, r.tasks, RunWave(env, r, wave, old(View(out))), View(out'), err)
      ensures DoneWithin(done[..], old(done[..]), wave)
    {
      hide Matches, RunGroup, RunGroups, SkipPass, WaveIndependent, Schedules, Distinct, Pick, Chunks, AtGroup;
      ghost var st0 := View(out);
      var remaining := SkipFailed(r.tasks, wave, done);
      ghost var st := View(out);
      SkipPassSubset(env, r.tasks, wave, st0.failed);
      SkipPassDistinct(env, r.tasks, wave, st0.failed);
      var asyncIdx, syncIdx := Partition(r, remaining);
      var chunks;
      out', err, outside, chunks := RunChunks(r, wave, remaining, asyncIdx, done, schedulers, out);
      ghost var groups := GroupsOf(r, env.maxWorkers, remaining);
      assert RunWave(env, r, wave, st0) == RunGroups(env, r.tasks, groups, st);
      ghost var at := |Chunks(asyncIdx, env.maxWorkers)|;
      if err.None? {
        ghost var o;
        out', err, o := RunSingles(r, wave, remaining, syncIdx, done, chunks, schedulers, out', st);
        outside, at := outside || o, |groups|;
      }
      if !outside {
        GroupsEnd(env, r.tasks, groups, at, st, View(out'), err);
      }
    }

    /** The whole plan, wave after wave. */
    method RunAsyncWaves(r: Roster, waves: seq<seq<nat>>, schedulers: nat -> nat -> State<Store> -> Action)
      returns (out: CrewOutput, err: Option<GroupError>, ghost outside: bool)
      requires RosterOk(r) && Planned(env, r.tasks, waves) && SchedulesRun(env, schedulers)
      requires AllWithin(r.tasks, waves)
      modifies this
      ensures err.Some? ==> env.failFast
      ensures !outside ==> Matches(env, r.tasks, RunWaves(env, r, waves, old(View(EMPTY_OUTPUT))), View(out), err)
    {
      hide Matches, RunWave, RunWaves, Planned, Independent, WaveIndependent, Schedules, Distinct;
      ghost var st := View(EMPTY_OUTPUT);
      out, err, outside := EMPTY_OUTPUT, None, false;
      var done := new bool[|r.tasks|](_ => false);
      NoWaves(env, r, waves, st);
      for w := 0 to |waves|
        invariant !outside ==> RunWaves(env, r, waves[..w], st) == Completed(View(out))
        invariant forall i :: 0 <= i < |r.tasks| && done[i] ==> exists v :: 0 <= v < w && i in waves[v]
      {
        PlannedIndependent(env, r.tasks, waves, w);
        forall i: nat | i in waves[w] ensures i < |r.tasks| && !done[i] {
          OneWaveOnly(env, r.tasks, waves, w, i);
        }
        ghost var before := View(out);
        ghost var o;
        assert SchedulesWave(env, schedulers(w));
        out, err, o := RunOneWave(r, waves[w], done, schedulers(w), out);
        outside := outside || o;
        if !outside {
          NextWave(env, r, waves, w, st, before, View(out), err);
        }
        if err.Some? {
          return;
        }
      }
      assert waves[..|waves|] == waves;
      if !outside {
        AllWaves(env, r, waves, st, View(out));
      }
      err := None;
    }

    /** Fold the slots in group order, after the barrier. */
    method FoldResults(tasks: seq<TaskRef>, idxs: seq<nat>, results: seq<TaskResult>, out: CrewOutput)
      returns (out': CrewOutput, err: Option<GroupError>)
      requires Within(tasks, idxs) && |results| == |idxs|
      modifies this`failedTasks, this`ran, this`broke
      ensures !env.failFast || NoneFailed(results) ==>
                err.None? && View(out') == FoldSlots(tasks, idxs, results, old(View(out)))
    {
      hide FoldTask, FoldSlots, NoneFailed;
      ghost var st := View(out);
      FoldSlotsStep(tasks, idxs, results, st, 0);
      out' := out;
      var k := 0;
      while k < |results|
        invariant k <= |results|
        invariant View(out') == FoldSlots(tasks, idxs[..k], results[..k], st)
      {
        var i, t := idxs[k], tasks[idxs[k]];
        FoldSlotsStep(tasks, idxs, results, st, k);
        ghost var before := View(out');
        ran := ran + [i];
        match results[k] {
          case Empty =>
          case Failed(e) =>
            broke := broke + {i};
            MarkFailed(t, e);
            if env.failFast {
              SomeFailed(results, k);
              return out', Some(GroupError(k, e));
            }
          case Output(output, facts) =>
            var taskWarnings := WarningsOf(warnings, t);
            var all := DedupFacts(out'.facts, facts);
            out' := CrewOutput(output, out'.tasksOutput + [TaskOutput(i, output, facts, taskWarnings)], all, out'.warnings + taskWarnings);
        }
        FoldIs(results[k], i, t, WarningsOf(warnings, t), before, View(out'));
        k := k + 1;
      }
      assert idxs[..k] == idxs && results[..k] == results;
      err := None;
    }

    /** wg.Wait */
    static method Joins(phase: seq<Phase>) returns (r: bool)
      ensures r <==> forall k :: 0 <= k < |phase| ==> phase[k] == Joined
    {
      for k := 0 to |phase|
        invariant forall j :: 0 <= j < k ==> phase[j] == Joined
      {
        if phase[k] != Joined {
          return false;
        }
      }
      return true;
    }
  }

  lemma InvParts<Store>(env: Env<Store>, g: Snapshot<Store>, tasks: seq<TaskRef>, s: State<Store>)
    requires Inv(env, g, tasks, s)
    ensures |s.phase| == |s.results| == |tasks| && SlotsBounded(env, s) && s.store == g.store
    ensures AllJoined(s) <==> forall k :: 0 <= k < |s.phase| ==> s.phase[k] == Joined
  {
  }

  lemma FoldIs<Store>(result: TaskResult, i: nat, t: TaskRef, warnings: seq<string>, before: CrewState<Store>,
                      after: CrewState<Store>)
    requires after.outputs == before.outputs && after.warnings == before.warnings && after.store == before.store
    requires after.ran == before.ran + [i] && after.broke == (if result.Failed? then before.broke + {i} else before.broke)
    requires after.failed == if result.Failed? then before.failed[t := result.err] else before.failed
    requires after.out == if result.Output? then
               CrewOutput(result.output, before.out.tasksOutput + [TaskOutput(i, result.output, result.facts, warnings)],
                          Dedup(before.out.facts, result.facts), before.out.warnings + warnings)
             else before.out
    ensures after == FoldTask(result, i, t, warnings, before)
  {
  }

  lemma ResultIs<Store>(env: Env<Store>, g: Snapshot<Store>, ts: seq<TaskRef>, s: State<Store>, k: nat)
    requires AsIfAlone(env, g, ts, s) && k < |ts|
    ensures k < |s.results| && s.results[k] == OwnResult(env, g, ts[k])
  {
    assert Finished(env, g, s, k, ts[k]);
  }

  predicate NoneFailed(results: seq<TaskResult>) {
    forall k :: 0 <= k < |results| ==> !results[k].Failed?
  }

  function FoldSlots<Store>(tasks: seq<TaskRef>, idxs: seq<nat>, results: seq<TaskResult>,
                            st: CrewState<Store>): CrewState<Store>
    requires Within(tasks, idxs) && |results| == |idxs|
  {
    if idxs == [] then st
    else
      var i := idxs[|idxs| - 1];
      FoldTask(results[|idxs| - 1], i, tasks[i], WarningsOf(st.warnings, tasks[i]),
               FoldSlots(tasks, idxs[..|idxs| - 1], results[..|idxs| - 1], st))
  }

  lemma FoldSlotsStep<Store>(tasks: seq<TaskRef>, idxs: seq<nat>, results: seq<TaskResult>, st: CrewState<Store>,
                             k: nat)
    requires Within(tasks, idxs) && |results| == |idxs|
    ensures FoldSlots(tasks, idxs[..0], results[..0], st) == st
    ensures k < |idxs| ==>
              FoldSlots(tasks, idxs[..k + 1], results[..k + 1], st) ==
              FoldTask(results[k], idxs[k], tasks[idxs[k]], WarningsOf(st.warnings, tasks[idxs[k]]),
                       FoldSlots(tasks, idxs[..k], results[..k], st))
  {
    hide FoldTask;
    assert idxs[..0] == [];
    if k < |idxs| {
      var head, slots := idxs[..k + 1], results[..k + 1];
      assert head[..k] == idxs[..k] && slots[..k] == results[..k] && head[k] == idxs[k] && slots[k] == results[k];
    }
  }

  lemma SomeFailed(results: seq<TaskResult>, k: nat)
    requires k < |results| && results[k].Failed?
    ensures !NoneFailed(results)
  {
  }

  lemma {:induction false} FoldSlotsIsSeq<Store>(env: Env<Store>, g: Snapshot<Store>, tasks: seq<TaskRef>,
                                                 idxs: seq<nat>,
                                                 results: seq<TaskResult>, st: CrewState<Store>)
    requires Within(tasks, idxs) && |results| == |idxs|
    requires forall k: nat :: k < |idxs| ==> results[k] == OwnResult(env, g, tasks[idxs[k]])
    ensures FoldSlots(tasks, idxs, results, st) == SeqFold(env, g, tasks, idxs, st)
  {
    if idxs != [] {
      FoldSlotsIsSeq(env, g, tasks, idxs[..|idxs| - 1], results[..|idxs| - 1], st);
    }
  }

  lemma FoldIsSeq<Store>(env: Env<Store>, g: Snapshot<Store>, tasks: seq<TaskRef>, idxs: seq<nat>, s: State<Store>,
                         st: CrewState<Store>)
    requires Within(tasks, idxs) && AsIfAlone(env, g, TasksAt(tasks, idxs), s)
    ensures FoldSlots(tasks, idxs, s.results, st) == SeqFold(env, g, tasks, idxs, st)
  {
    hide FoldTask, OwnResult;
    forall k: nat | k < |idxs| ensures s.results[k] == OwnResult(env, g, tasks[idxs[k]]) {
      ResultIs(env, g, TasksAt(tasks, idxs), s, k);
    }
    FoldSlotsIsSeq(env, g, tasks, idxs, s.results, st);
  }

  lemma NoLateError(results: seq<TaskResult>)
    requires forall k: nat :: k < |results| ==> !results[k].Failed?
    ensures NoneFailed(results)
  {
  }

  lemma {:induction false} FoldSlotsRan<Store>(tasks: seq<TaskRef>, idxs: seq<nat>, results: seq<TaskResult>,
                                               st: CrewState<Store>)
    requires Within(tasks, idxs) && |results| == |idxs|
    ensures FoldSlots(tasks, idxs, results, st).ran == st.ran + idxs
  {
    if idxs != [] {
      FoldSlotsRan(tasks, idxs[..|idxs| - 1], results[..|idxs| - 1], st);
      assert idxs == idxs[..|idxs| - 1] + [idxs[|idxs| - 1]];
    }
  }

  /** What is left when the group's marks are set and its buffer dropped. */
  lemma GroupAbandoned<Store>(env: Env<Store>, tasks: seq<TaskRef>, idxs: seq<nat>, st: CrewState<Store>,
                              s: State<Store>, e: TaskError, end: CrewState<Store>)
    requires Within(tasks, idxs) && Inv(env, SnapshotOf(st), TasksAt(tasks, idxs), s)
    requires Marked(TasksAt(tasks, idxs), st.failed, end.failed, e)
    requires end == st.(outputs := s.outputs, warnings := s.warnings, failed := end.failed)
    ensures Abandoned(tasks, idxs, st, end, e)
  {
    hide Marked;
    var g, ts := SnapshotOf(st), TasksAt(tasks, idxs);
    assert Sealed(g, ts, s);
    hide Inv;
    forall t: TaskRef | t !in ts ensures Get(s.outputs, t) == Get(g.outputs, t) && Get(s.warnings, t) == Get(g.warnings, t) {
      assert RowOf(s, t) == RowBefore(g, t);
    }
  }

  lemma GroupSaved<Store>(env: Env<Store>, g: Snapshot<Store>, ts: seq<TaskRef>, stash: seq<(TaskRef, string)>,
                          saved: Saved<Store>)
    requires forall t: TaskRef :: t in ts ==> Lookup(stash, t) == OwnEntry(env, g, t)
    ensures SeqSave(env, g, ts, saved) == if env.autoSave then Commit(env, stash, ts, saved) else saved
  {
    CommitIsSeqSave(env, g, stash, ts, saved);
    if !env.autoSave {
      NothingSaved(env, g, ts, stash);
      CommitNothing(env, stash, ts, saved);
    }
  }

  lemma GroupAborts<Store>(env: Env<Store>, tasks: seq<TaskRef>, idxs: seq<nat>, st: CrewState<Store>, k: nat,
                           e: TaskError, end: CrewState<Store>)
    requires Within(tasks, idxs) && env.failFast && k < |idxs| && Abandoned(tasks, idxs, st, end, e)
    requires OwnError(env, SnapshotOf(st), tasks[idxs[k]]) == Some(e)
    ensures Matches(env, tasks, RunGroup(env, tasks, idxs, st), end, Some(GroupError(k, e)))
  {
    assert TasksAt(tasks, idxs)[k] == tasks[idxs[k]];
  }

  lemma GroupCompletes<Store>(env: Env<Store>, tasks: seq<TaskRef>, idxs: seq<nat>, st: CrewState<Store>,
                              base: CrewState<Store>)
    requires Within(tasks, idxs) && !(env.failFast && SomeoneFails(env, SnapshotOf(st), TasksAt(tasks, idxs)))
    requires var g := SnapshotOf(st);
             var ts := TasksAt(tasks, idxs);
             var saved := SeqSave(env, g, ts, Saved(g.store, SeqWarnings(env, g, ts)));
             base == st.(outputs := SeqOutputs(env, g, ts), warnings := saved.warnings, store := saved.store)
    ensures RunGroup(env, tasks, idxs, st) == Completed(SeqFold(env, SnapshotOf(st), tasks, idxs, base))
    ensures forall end :: end == SeqFold(env, SnapshotOf(st), tasks, idxs, base) ==>
              Matches(env, tasks, RunGroup(env, tasks, idxs, st), end, None)
  {
  }

  // ----- waves -----

  function ContextsOf<Store>(env: Env<Store>, tasks: seq<TaskRef>): (contexts: seq<seq<TaskRef>>)
    ensures |contexts| == |tasks| && forall i :: 0 <= i < |tasks| ==> contexts[i] == env.context(tasks[i])
  {
    seq(|tasks|, i requires 0 <= i < |tasks| => env.context(tasks[i]))
  }

  /** The waves are what planWaves returns for these tasks. */
  ghost predicate Planned<Store>(env: Env<Store>, tasks: seq<TaskRef>, waves: seq<seq<nat>>) {
    Distinct(tasks) && CorrectPlan(DepGraph(tasks, ContextsOf(env, tasks)), waves)
  }

  /** Any part of the wave is a group of distinct tasks that do not depend on one another. */
  ghost predicate WaveIndependent<Store>(env: Env<Store>, tasks: seq<TaskRef>, wave: seq<nat>) {
    forall idxs: seq<nat> :: Within(tasks, idxs) && Distinct(idxs) && (forall i: nat :: i in idxs ==> i in wave) ==>
      Independent(env, TasksAt(tasks, idxs))
  }

  lemma PlannedEdge<Store>(env: Env<Store>, tasks: seq<TaskRef>, i: nat, j: nat)
    requires Distinct(tasks) && i < |tasks| && j < |tasks| && tasks[j] in env.context(tasks[i])
    ensures Edge(DepGraph(tasks, ContextsOf(env, tasks)), j, i)
  {
    var context := env.context(tasks[i]);
    var k :| 0 <= k < |context| && context[k] == tasks[j];
    InListContains(tasks, context, k);
    assert IndexOf(tasks, tasks[j]) == j;
  }

  /** A walk to j continues along an edge from j to i. */
  lemma WalkContinues(g: Graph, w: nat, i: nat, j: nat, v: nat)
    requires LongestWalkTo(g, j, w) && Edge(g, j, i) && LongestWalkTo(g, i, v)
    ensures w < v
  {
    var p :| Path(g, p) && p[|p| - 1] == j && |p| == w + 1;
    PathExtend(g, p, p[0], j, i);
    assert Path(g, p + [i]) && (p + [i])[|p + [i]| - 1] == i;
  }

  lemma NoEdgeInWave<Store>(env: Env<Store>, tasks: seq<TaskRef>, waves: seq<seq<nat>>, w: nat, i: nat, j: nat)
    requires Planned(env, tasks, waves) && w < |waves| && i in waves[w] && j in waves[w]
    requires i < |tasks| && j < |tasks|
    ensures tasks[j] !in env.context(tasks[i])
  {
    var g := DepGraph(tasks, ContextsOf(env, tasks));
    hide LongestWalkTo;
    assert LongestWalkTo(g, i, w) && LongestWalkTo(g, j, w);
    if tasks[j] in env.context(tasks[i]) {
      PlannedEdge(env, tasks, i, j);
      WalkContinues(g, w, i, j, w);
    }
  }

  lemma PlannedIndependent<Store>(env: Env<Store>, tasks: seq<TaskRef>, waves: seq<seq<nat>>, w: nat)
    requires Planned(env, tasks, waves) && w < |waves|
    ensures WaveIndependent(env, tasks, waves[w]) && Within(tasks, waves[w]) && Distinct(waves[w])
  {
    var g := DepGraph(tasks, ContextsOf(env, tasks));
    forall idxs: seq<nat> | Within(tasks, idxs) && Distinct(idxs) && (forall i: nat :: i in idxs ==> i in waves[w])
      ensures Independent(env, TasksAt(tasks, idxs)) {
      PartIndependent(env, tasks, waves, w, idxs);
    }
    forall k | 0 <= k < |waves[w]| ensures waves[w][k] < |tasks| {
      assert waves[w][k] in waves[w];
    }
  }

  lemma PartIndependent<Store>(env: Env<Store>, tasks: seq<TaskRef>, waves: seq<seq<nat>>, w: nat, idxs: seq<nat>)
    requires Planned(env, tasks, waves) && w < |waves|
    requires Within(tasks, idxs) && Distinct(idxs) && forall i: nat :: i in idxs ==> i in waves[w]
    ensures Independent(env, TasksAt(tasks, idxs))
  {
    var g := DepGraph(tasks, ContextsOf(env, tasks));
    hide LongestWalkTo;
    var ts := TasksAt(tasks, idxs);
    forall k: nat, j: nat | k < |ts| && j < |ts| ensures ts[j] !in env.context(ts[k]) {
      assert idxs[k] in idxs && idxs[j] in idxs;
      NoEdgeInWave(env, tasks, waves, w, idxs[k], idxs[j]);
    }
  }

  lemma {:induction false} SkipPassDistinct<Store>(env: Env<Store>, tasks: seq<TaskRef>, wave: seq<nat>,
                                                   failed: FailedTasks)
    requires Within(tasks, wave) && Distinct(wave)
    ensures Distinct(SkipPass(env, tasks, wave, failed).remaining)
  {
    if wave != [] {
      var front := wave[..|wave| - 1];
      SkipPassDistinct(env, tasks, front, failed);
      SkipPassSubset(env, tasks, front, failed);
      var before := SkipPass(env, tasks, front, failed).remaining;
      forall k | 0 <= k < |before| ensures before[k] != wave[|wave| - 1] {
        assert before[k] in front;
      }
    }
  }

  lemma {:induction false} PickDistinct(idxs: seq<nat>, async: seq<bool>, want: bool)
    requires Distinct(idxs)
    ensures Distinct(Pick(idxs, async, want))
  {
    if idxs != [] {
      var front := idxs[..|idxs| - 1];
      PickDistinct(front, async, want);
      var before := Pick(front, async, want);
      forall k | 0 <= k < |before| ensures before[k] != idxs[|idxs| - 1] {
        assert before[k] in front;
      }
    }
  }

  lemma {:induction false} ChunksDistinct(idxs: seq<nat>, n: nat, k: nat)
    requires Distinct(idxs) && k < |Chunks(idxs, n)|
    ensures Distinct(Chunks(idxs, n)[k])
    decreases |idxs|
  {
    if n > 0 && |idxs| > n && k > 0 {
      ChunksDistinct(idxs[n..], n, k - 1);
    }
  }

  lemma NextChunk(idxs: seq<nat>, start: nat, end: nat, n: nat)
    requires start < |idxs| && end == if n > 0 && start + n < |idxs| then start + n else |idxs|
    ensures start < end <= |idxs|
    ensures Chunks(idxs[start..], n) == [idxs[start..end]] + Chunks(idxs[end..], n)
  {
    if end == |idxs| {
      assert idxs[start..end] == idxs[start..] && idxs[end..] == [];
      assert [idxs[start..]] + [] == [idxs[start..]];
    } else {
      assert idxs[start..][..n] == idxs[start..end] && idxs[start..][n..] == idxs[end..];
    }
  }

  lemma NoChunks(n: nat)
    ensures Chunks([], n) == []
  {
  }

  /** Every group of a wave may run on its own snapshot. */
  lemma GroupReady<Store>(env: Env<Store>, r: Roster, wave: seq<nat>, remaining: seq<nat>, k: nat)
    requires WaveIndependent(env, r.tasks, wave) && Within(r.tasks, remaining) && Distinct(remaining)
    requires forall i: nat :: i in remaining ==> i in wave
    requires k < |GroupsOf(r, env.maxWorkers, remaining)|
    ensures var group := GroupsOf(r, env.maxWorkers, remaining)[k];
            && group != [] && Within(r.tasks, group) && Independent(env, TasksAt(r.tasks, group))
            && forall i: nat :: i in group ==> i in wave
  {
    hide Independent;
    var group := GroupsOf(r, env.maxWorkers, remaining)[k];
    var chunks := Chunks(Pick(remaining, r.async, true), env.maxWorkers);
    GroupsWithin(r, env.maxWorkers, remaining);
    if k < |chunks| {
      PickDistinct(remaining, r.async, true);
      ChunksDistinct(Pick(remaining, r.async, true), env.maxWorkers, k);
      assert group == chunks[k];
    }
    forall i: nat | i in group ensures i in wave {
      assert k < |chunks| ==> group == chunks[k];
    }
    assert Distinct(group);
  }

  /** k groups of the reference run are done; or it has ended with an error. */
  ghost predicate AtGroup<Store>(env: Env<Store>, tasks: seq<TaskRef>, groups: seq<seq<nat>>, k: nat,
                                 st: CrewState<Store>,
                                 now: CrewState<Store>, err: Option<GroupError>)
    requires AllWithin(tasks, groups)
  {
    if err.None? then k <= |groups| && RunGroups(env, tasks, groups[..k], st) == Completed(now)
    else Matches(env, tasks, RunGroups(env, tasks, groups, st), now, err)
  }

  /** Tasks newly marked done are members of the wave. */
  ghost predicate DoneWithin(done: seq<bool>, was: seq<bool>, wave: seq<nat>) {
    |done| == |was| && forall i :: 0 <= i < |done| && done[i] ==> was[i] || i in wave
  }

  lemma NoGroups<Store>(env: Env<Store>, tasks: seq<TaskRef>, groups: seq<seq<nat>>, st: CrewState<Store>)
    requires AllWithin(tasks, groups)
    ensures AtGroup(env, tasks, groups, 0, st, st, None)
  {
  }

  /** One more group of the reference run, or its end if the group aborts. */
  lemma NextGroup<Store>(env: Env<Store>, tasks: seq<TaskRef>, groups: seq<seq<nat>>, k: nat, last: nat,
                         st: CrewState<Store>,
                         before: CrewState<Store>, after: CrewState<Store>, err: Option<GroupError>)
    requires AllWithin(tasks, groups) && k < |groups|
    requires AtGroup(env, tasks, groups, k, st, before, None)
    requires Matches(env, tasks, RunGroup(env, tasks, groups[k], before), after, err)
    ensures AtGroup(env, tasks, groups, if err.None? then k + 1 else last, st, after, err)
  {
    hide RunGroup;
    assert groups[..k + 1][..k] == groups[..k];
    if err.Some? {
      RunGroupsAborted(env, tasks, groups, k + 1, st);
    }
  }

  lemma {:induction false} RunGroupsAborted<Store>(env: Env<Store>, tasks: seq<TaskRef>, groups: seq<seq<nat>>,
                                                   k: nat, st: CrewState<Store>)
    requires AllWithin(tasks, groups) && k <= |groups| && RunGroups(env, tasks, groups[..k], st).Aborted?
    ensures RunGroups(env, tasks, groups, st) == RunGroups(env, tasks, groups[..k], st)
    decreases |groups| - k
  {
    if k == |groups| {
      assert groups[..k] == groups;
    } else {
      assert groups[..k + 1][..k] == groups[..k];
      RunGroupsAborted(env, tasks, groups, k + 1, st);
    }
  }

  lemma GroupsEnd<Store>(env: Env<Store>, tasks: seq<TaskRef>, groups: seq<seq<nat>>, k: nat, st: CrewState<Store>,
                         end: CrewState<Store>, err: Option<GroupError>)
    requires AllWithin(tasks, groups) && AtGroup(env, tasks, groups, k, st, end, err) && (err.None? ==> k == |groups|)
    ensures Matches(env, tasks, RunGroups(env, tasks, groups, st), end, err)
  {
    assert groups[..|groups|] == groups;
  }

  lemma OneWaveOnly<Store>(env: Env<Store>, tasks: seq<TaskRef>, waves: seq<seq<nat>>, w: nat, i: nat)
    requires Planned(env, tasks, waves) && w < |waves| && i in waves[w]
    ensures i < |tasks| && forall v :: 0 <= v < w ==> i !in waves[v]
  {
    var g := DepGraph(tasks, ContextsOf(env, tasks));
    hide LongestWalkTo;
    forall v: nat | v < w ensures i !in waves[v] {
      if i in waves[v] {
        WaveOrder.LongestWalkUnique(g, i, v, w);
      }
    }
  }

  lemma NoWaves<Store>(env: Env<Store>, r: Roster, waves: seq<seq<nat>>, st: CrewState<Store>)
    requires AllWithin(r.tasks, waves)
    ensures RunWaves(env, r, waves[..0], st) == Completed(st)
  {
  }

  /** One more wave of the reference run, or its end if the wave aborts. */
  lemma NextWave<Store>(env: Env<Store>, r: Roster, waves: seq<seq<nat>>, w: nat, st: CrewState<Store>,
                        before: CrewState<Store>, after: CrewState<Store>, err: Option<GroupError>)
    requires AllWithin(r.tasks, waves) && w < |waves|
    requires RunWaves(env, r, waves[..w], st) == Completed(before)
    requires Matches(env, r.tasks, RunWave(env, r, waves[w], before), after, err)
    ensures err.None? ==> RunWaves(env, r, waves[..w + 1], st) == Completed(after)
    ensures err.Some? ==> Matches(env, r.tasks, RunWaves(env, r, waves, st), after, err)
  {
    hide RunWave;
    assert waves[..w + 1][..w] == waves[..w];
    if err.Some? {
      RunWavesAborted(env, r, waves, w + 1, st);
    }
  }

  lemma {:induction false} RunWavesAborted<Store>(env: Env<Store>, r: Roster, waves: seq<seq<nat>>, w: nat,
                                                  st: CrewState<Store>)
    requires AllWithin(r.tasks, waves) && w <= |waves| && RunWaves(env, r, waves[..w], st).Aborted?
    ensures RunWaves(env, r, waves, st) == RunWaves(env, r, waves[..w], st)
    decreases |waves| - w
  {
    if w == |waves| {
      assert waves[..w] == waves;
    } else {
      assert waves[..w + 1][..w] == waves[..w];
      RunWavesAborted(env, r, waves, w + 1, st);
    }
  }

  lemma AllWaves<Store>(env: Env<Store>, r: Roster, waves: seq<seq<nat>>, st: CrewState<Store>, end: CrewState<Store>)
    requires AllWithin(r.tasks, waves) && RunWaves(env, r, waves, st) == Completed(end)
    ensures Matches(env, r.tasks, RunWaves(env, r, waves, st), end, None)
  {
  }
}
