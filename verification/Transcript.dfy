/** A completed run told as a list of events, one task at a time (crew.go: runAsyncWaves, runWaveGroup, execute).
  *
  * `PlayOne` says in full what one event does to the crew. `RunScript` says which events a plan has: in which order
  * tasks are skipped and run, and which context and store each of them saw.
  */
module Transcript {
  import opened Common
  import opened Digraph
  import opened Kahn
  import opened Schedule
  import opened Facts
  import opened TaskGroup
  import opened AsyncCrew
  import opened FailureClosure

  /** A task is skipped for a failed dependency, has no agent, or runs with the store and the outputs as they were
      after the first `seen` events, and x is what its execution returns. */
  datatype Event = Skipped(i: nat, dep: TaskRef) | Idle(i: nat) | Ran(i: nat, seen: nat, x: Execution)

  // ----- what an event does -----

  function Told(warnings: Warnings, t: TaskRef): seq<string> {
    if t in warnings then warnings[t] else []
  }

  /** The output is recorded on the task. */
  function Record<Store>(st: CrewState<Store>, t: TaskRef, output: string): CrewState<Store> {
    st.(outputs := st.outputs[t := output])
  }

  /** And put into the store, if the crew saves outputs. */
  function Keep<Store>(env: Env<Store>, st: CrewState<Store>, t: TaskRef, output: string): CrewState<Store> {
    if !env.autoSave then st
    else
      var put := env.put(st.store, t, output);
      st.(store := put.store, warnings := st.warnings[t := Told(st.warnings, t) + put.warnings])
  }

  function Lose<Store>(st: CrewState<Store>, i: nat, t: TaskRef, err: TaskError): CrewState<Store> {
    st.(broke := st.broke + {i}, failed := st.failed[t := err])
  }

  /** A successful task's output is reported, with its warnings, and is the final text so far. */
  function Report<Store>(st: CrewState<Store>, i: nat, t: TaskRef, output: string, facts: seq<Fact>): CrewState<Store> {
    st.(out := CrewOutput(output, st.out.tasksOutput + [TaskOutput(i, output, facts, Told(st.warnings, t))],
                          Dedup(st.out.facts, facts), st.out.warnings + Told(st.warnings, t)))
  }

  function PlayOne<Store>(env: Env<Store>, tasks: seq<TaskRef>, st: CrewState<Store>, e: Event): CrewState<Store>
    requires e.i < |tasks|
  {
    var t := tasks[e.i];
    match e
    case Skipped(_, dep) =>
      st.(failed := st.failed[t := DependencyFailed(dep, if dep in st.failed then st.failed[dep] else Canceled)])
    case Idle(i) => st.(ran := st.ran + [i])
    case Ran(i, _, x) =>
      var begun := st.(ran := st.ran + [i], warnings := st.warnings[t := Told(st.warnings, t) + x.warnings]);
      match x.end
      case Interrupted => Lose(begun, i, t, Canceled)
      case Fails(err) => Lose(begun, i, t, TaskError.Raised(err))
      case WriteFails(output, err) => Lose(Record(begun, t, output), i, t, TaskError.Raised(err))
      case Blocked(output, err) => Lose(Keep(env, Record(begun, t, output), t, output), i, t, TaskError.Raised(err))
      case Succeeds(output, facts) => Report(Keep(env, Record(begun, t, output), t, output), i, t, output, facts)
  }

  predicate EventsWithin(tasks: seq<TaskRef>, events: seq<Event>) {
    forall k :: 0 <= k < |events| ==> events[k].i < |tasks|
  }

  function Play<Store>(env: Env<Store>, tasks: seq<TaskRef>, st: CrewState<Store>, events: seq<Event>): CrewState<Store>
    requires EventsWithin(tasks, events)
  {
    if events == [] then st
    else PlayOne(env, tasks, Play(env, tasks, st, events[..|events| - 1]), events[|events| - 1])
  }

  lemma {:induction false} PlayAppend<Store>(env: Env<Store>, tasks: seq<TaskRef>, st: CrewState<Store>,
                                             a: seq<Event>, b: seq<Event>)
    requires EventsWithin(tasks, a) && EventsWithin(tasks, b)
    ensures EventsWithin(tasks, a + b) && Play(env, tasks, st, a + b) == Play(env, tasks, Play(env, tasks, st, a), b)
  {
    hide PlayOne;
    if b == [] {
      assert a + b == a;
    } else {
      PlayAppend(env, tasks, st, a, b[..|b| - 1]);
      assert (a + b)[..|a + b| - 1] == a + b[..|b| - 1] && (a + b)[|a + b| - 1] == b[|b| - 1];
    }
  }

  // ----- what a task sees -----

  /** What the agent of t is told: the text made of the outputs of its dependencies, and what the memory recalls. */
  function Sees<Store>(env: Env<Store>, t: TaskRef, outputs: Outputs, store: Store): string {
    var deps := env.context(t);
    var context := env.text(t, seq(|deps|, k requires 0 <= k < |deps| => if deps[k] in outputs then outputs[deps[k]] else ""));
    if !env.memory then context
    else if env.injectWhenEmpty && context != "" then context
    else if env.recall(store) == "" then context
    else if context == "" then env.recall(store)
    else context + "\n\n" + env.recall(store)
  }

  lemma SeesIs<Store>(env: Env<Store>, g: Snapshot<Store>, t: TaskRef)
    ensures OwnEnd(env, g, t) == env.run(t, Sees(env, t, g.outputs, g.store))
  {
    var deps := env.context(t);
    assert OutputsOf(g.outputs, deps) ==
           seq(|deps|, k requires 0 <= k < |deps| => if deps[k] in g.outputs then g.outputs[deps[k]] else "");
  }

  // ----- a group, one task at a time -----

  /** The event of task i in a group that starts from g after `seen` events. */
  function GroupEvent<Store>(env: Env<Store>, tasks: seq<TaskRef>, g: Snapshot<Store>, seen: nat, i: nat): Event
    requires i < |tasks|
  {
    if !env.hasAgent(tasks[i]) then Idle(i) else Ran(i, seen, OwnEnd(env, g, tasks[i]))
  }

  function GroupEvents<Store>(env: Env<Store>, tasks: seq<TaskRef>, idxs: seq<nat>, g: Snapshot<Store>,
                              seen: nat): (events: seq<Event>)
    requires Within(tasks, idxs)
    ensures |events| == |idxs| && EventsWithin(tasks, events)
    ensures forall k :: 0 <= k < |idxs| ==> events[k] == GroupEvent(env, tasks, g, seen, idxs[k]) && events[k].i == idxs[k]
  {
    seq(|idxs|, k requires 0 <= k < |idxs| => GroupEvent(env, tasks, g, seen, idxs[k]))
  }

  /** The state after the first n tasks of the group, at the barrier. */
  function Barrier<Store>(env: Env<Store>, tasks: seq<TaskRef>, idxs: seq<nat>, st: CrewState<Store>): CrewState<Store>
    requires Within(tasks, idxs)
  {
    var g := SnapshotOf(st);
    var ts := TasksAt(tasks, idxs);
    var saved := SeqSave(env, g, ts, Saved(g.store, SeqWarnings(env, g, ts)));
    SeqFold(env, g, tasks, idxs, st.(outputs := SeqOutputs(env, g, ts), warnings := saved.warnings, store := saved.store))
  }

  lemma {:induction false} SaveFrame<Store>(env: Env<Store>, g: Snapshot<Store>, ts: seq<TaskRef>, s: Store,
                                            warnings: Warnings, t: TaskRef, more: seq<string>)
    requires t !in ts
    ensures var a, b := SeqSave(env, g, ts, Saved(s, warnings)), SeqSave(env, g, ts, Saved(s, warnings[t := more]));
            b.store == a.store && b.warnings == a.warnings[t := more] && Get(a.warnings, t) == Get(warnings, t)
  {
    hide OwnEntry;
    if ts != [] {
      var front, u := ts[..|ts| - 1], ts[|ts| - 1];
      assert u in ts && forall x :: x in front ==> x in ts;
      SaveFrame(env, g, front, s, warnings, t, more);
      var a := SeqSave(env, g, front, Saved(s, warnings));
      assert WarningsOf(a.warnings[t := more], u) == WarningsOf(a.warnings, u);
    }
  }

  lemma {:induction false} FoldFrame<Store>(env: Env<Store>, g: Snapshot<Store>, tasks: seq<TaskRef>, idxs: seq<nat>,
                                            st: CrewState<Store>, st': CrewState<Store>)
    requires Within(tasks, idxs) && st' == st.(outputs := st'.outputs, warnings := st'.warnings, store := st'.store)
    requires forall k :: 0 <= k < |idxs| ==> WarningsOf(st.warnings, tasks[idxs[k]]) == WarningsOf(st'.warnings, tasks[idxs[k]])
    ensures var a, b := SeqFold(env, g, tasks, idxs, st), SeqFold(env, g, tasks, idxs, st');
            && b == a.(outputs := st'.outputs, warnings := st'.warnings, store := st'.store)
            && a.outputs == st.outputs && a.warnings == st.warnings && a.store == st.store
  {
    hide OwnResult;
    if idxs != [] {
      FoldFrame(env, g, tasks, idxs[..|idxs| - 1], st, st');
    }
  }

  lemma AppendTask(tasks: seq<TaskRef>, idxs: seq<nat>, i: nat)
    requires Within(tasks, idxs) && i < |tasks|
    ensures Within(tasks, idxs + [i]) && TasksAt(tasks, idxs + [i]) == TasksAt(tasks, idxs) + [tasks[i]]
    ensures (idxs + [i])[..|idxs|] == idxs && TasksAt(tasks, idxs + [i])[..|idxs|] == TasksAt(tasks, idxs)
  {
  }

  /** The tables of a group with one more task. */
  lemma TablesStep<Store>(env: Env<Store>, g: Snapshot<Store>, ts: seq<TaskRef>, t: TaskRef)
    requires t !in ts
    ensures var x := OwnEnd(env, g, t);
            && SeqOutputs(env, g, ts + [t]) ==
               (if env.hasAgent(t) && EndOutput(x.end).Some? then SeqOutputs(env, g, ts)[t := EndOutput(x.end).value] else SeqOutputs(env, g, ts))
            && SeqWarnings(env, g, ts + [t]) ==
               (if env.hasAgent(t) then SeqWarnings(env, g, ts)[t := Told(g.warnings, t) + x.warnings] else SeqWarnings(env, g, ts))
            && Get(SeqWarnings(env, g, ts), t) == Get(g.warnings, t)
  {
    SeqTables(env, g, ts, t);
    assert (ts + [t])[..|ts|] == ts;
    hide OwnEnd, OwnEntry;
  }

  /** The store and the warnings at the barrier, with one more task. */
  lemma SavedStep<Store>(env: Env<Store>, g: Snapshot<Store>, ts: seq<TaskRef>, t: TaskRef)
    requires t !in ts
    ensures var a := SeqSave(env, g, ts, Saved(g.store, SeqWarnings(env, g, ts)));
            var x := OwnEnd(env, g, t);
            var entry := OwnEntry(env, g, t);
            var told := Told(a.warnings, t) + x.warnings;
            && Told(a.warnings, t) == Told(g.warnings, t)
            && SeqSave(env, g, ts + [t], Saved(g.store, SeqWarnings(env, g, ts + [t]))) ==
               if !env.hasAgent(t) then a
               else if entry.None? then Saved(a.store, a.warnings[t := told])
               else
                 var put := env.put(a.store, t, entry.value);
                 Saved(put.store, a.warnings[t := told + put.warnings])
  {
    TablesStep(env, g, ts, t);
    assert (ts + [t])[..|ts|] == ts;
    var x := OwnEnd(env, g, t);
    var w := SeqWarnings(env, g, ts);
    SaveFrame(env, g, ts, g.store, w, t, Told(g.warnings, t) + x.warnings);
    hide SeqWarnings, OwnEnd;
  }

  lemma BarrierShape<Store>(env: Env<Store>, tasks: seq<TaskRef>, idxs: seq<nat>, i: nat, st: CrewState<Store>)
    requires Within(tasks, idxs) && i < |tasks| && tasks[i] !in TasksAt(tasks, idxs)
    ensures Within(tasks, idxs + [i])
    ensures var g, t := SnapshotOf(st), tasks[i];
            var ts := TasksAt(tasks, idxs);
            var saved := SeqSave(env, g, ts + [t], Saved(g.store, SeqWarnings(env, g, ts + [t])));
            Barrier(env, tasks, idxs + [i], st) ==
            FoldTask(OwnResult(env, g, t), i, t, WarningsOf(saved.warnings, t),
                     Barrier(env, tasks, idxs, st).(outputs := SeqOutputs(env, g, ts + [t]), warnings := saved.warnings, store := saved.store))
  {
    var g, t := SnapshotOf(st), tasks[i];
    var ts := TasksAt(tasks, idxs);
    AppendTask(tasks, idxs, i);
    SavedStep(env, g, ts, t);
    var a := SeqSave(env, g, ts, Saved(g.store, SeqWarnings(env, g, ts)));
    var b := SeqSave(env, g, ts + [t], Saved(g.store, SeqWarnings(env, g, ts + [t])));
    var base := st.(outputs := SeqOutputs(env, g, ts), warnings := a.warnings, store := a.store);
    var base' := st.(outputs := SeqOutputs(env, g, ts + [t]), warnings := b.warnings, store := b.store);
    hide SeqSave, SeqOutputs, SeqWarnings, OwnResult, OwnEnd, OwnEntry, FoldTask;
    forall k | 0 <= k < |idxs| ensures WarningsOf(base.warnings, tasks[idxs[k]]) == WarningsOf(base'.warnings, tasks[idxs[k]]) {
      assert ts[k] in ts;
    }
    FoldFrame(env, g, tasks, idxs, base, base');
  }

  /** One more task of the group is one more event. */
  lemma BarrierStep<Store>(env: Env<Store>, tasks: seq<TaskRef>, idxs: seq<nat>, i: nat, st: CrewState<Store>,
                           seen: nat)
    requires Within(tasks, idxs) && i < |tasks| && tasks[i] !in TasksAt(tasks, idxs)
    ensures Within(tasks, idxs + [i])
    ensures Barrier(env, tasks, idxs + [i], st) == PlayOne(env, tasks, Barrier(env, tasks, idxs, st), GroupEvent(env, tasks, SnapshotOf(st), seen, i))
  {
    BarrierShape(env, tasks, idxs, i, st);
    var g, t := SnapshotOf(st), tasks[i];
    var ts := TasksAt(tasks, idxs);
    SavedStep(env, g, ts, t);
    TablesStep(env, g, ts, t);
    BarrierTables(env, tasks, idxs, st);
    hide Barrier, SeqSave, SeqOutputs, SeqWarnings, OwnEnd;
    EventFolds(env, tasks, i, g, seen, Barrier(env, tasks, idxs, st),
               SeqSave(env, g, ts + [t], Saved(g.store, SeqWarnings(env, g, ts + [t]))), SeqOutputs(env, g, ts + [t]));
  }

  lemma BarrierTables<Store>(env: Env<Store>, tasks: seq<TaskRef>, idxs: seq<nat>, st: CrewState<Store>)
    requires Within(tasks, idxs)
    ensures var g := SnapshotOf(st);
            var ts := TasksAt(tasks, idxs);
            var a := SeqSave(env, g, ts, Saved(g.store, SeqWarnings(env, g, ts)));
            var b := Barrier(env, tasks, idxs, st);
            b.outputs == SeqOutputs(env, g, ts) && b.warnings == a.warnings && b.store == a.store
  {
    var g := SnapshotOf(st);
    var ts := TasksAt(tasks, idxs);
    var a := SeqSave(env, g, ts, Saved(g.store, SeqWarnings(env, g, ts)));
    var base := st.(outputs := SeqOutputs(env, g, ts), warnings := a.warnings, store := a.store);
    hide SeqSave, SeqOutputs, SeqWarnings;
    FoldFrame(env, g, tasks, idxs, base, base);
  }

  /** What the fold at the barrier makes of the task's slot is what its event does. */
  lemma EventFolds<Store>(env: Env<Store>, tasks: seq<TaskRef>, i: nat, g: Snapshot<Store>, seen: nat,
                          b: CrewState<Store>, saved: Saved<Store>, outputs: Outputs)
    requires i < |tasks|
    requires var t := tasks[i];
             var x := OwnEnd(env, g, t);
             var entry := OwnEntry(env, g, t);
             var told := Told(b.warnings, t) + x.warnings;
             && outputs == (if env.hasAgent(t) && EndOutput(x.end).Some? then b.outputs[t := EndOutput(x.end).value] else b.outputs)
             && saved ==
                (if !env.hasAgent(t) then Saved(b.store, b.warnings)
                 else if entry.None? then Saved(b.store, b.warnings[t := told])
                 else
                   var put := env.put(b.store, t, entry.value);
                   Saved(put.store, b.warnings[t := told + put.warnings]))
    ensures var t := tasks[i];
            FoldTask(OwnResult(env, g, t), i, t, WarningsOf(saved.warnings, t), b.(outputs := outputs, warnings := saved.warnings, store := saved.store)) ==
            PlayOne(env, tasks, b, GroupEvent(env, tasks, g, seen, i))
  {
    var t := tasks[i];
    hide OwnEnd, Dedup;
    if env.hasAgent(t) {
      EventEnds(env, tasks, i, seen, OwnEnd(env, g, t), b, saved, outputs, OwnEntry(env, g, t));
    }
  }

  lemma EventEnds<Store>(env: Env<Store>, tasks: seq<TaskRef>, i: nat, seen: nat, x: Execution, b: CrewState<Store>,
                         saved: Saved<Store>, outputs: Outputs, entry: Option<string>)
    requires i < |tasks| && entry == if env.autoSave && Saves(x.end) then EndOutput(x.end) else None
    requires var t := tasks[i];
             var told := Told(b.warnings, t) + x.warnings;
             && outputs == (if EndOutput(x.end).Some? then b.outputs[t := EndOutput(x.end).value] else b.outputs)
             && saved ==
                if entry.None? then Saved(b.store, b.warnings[t := told])
                else
                  var put := env.put(b.store, t, entry.value);
                  Saved(put.store, b.warnings[t := told + put.warnings])
    ensures var t := tasks[i];
            FoldTask(EndResult(x.end), i, t, WarningsOf(saved.warnings, t), b.(outputs := outputs, warnings := saved.warnings, store := saved.store)) ==
            PlayOne(env, tasks, b, Ran(i, seen, x))
  {
    hide Dedup;
    var t := tasks[i];
    var told := Told(b.warnings, t) + x.warnings;
    match x.end {
      case Interrupted =>
      case Fails(_) =>
      case WriteFails(_, _) =>
      case Blocked(output, _) => KeepIs(env, b, t, told, output);
      case Succeeds(output, _) => KeepIs(env, b, t, told, output);
    }
  }

  lemma KeepIs<Store>(env: Env<Store>, b: CrewState<Store>, t: TaskRef, told: seq<string>, output: string)
    ensures var put := env.put(b.store, t, output);
            forall begun: CrewState<Store> :: begun.store == b.store && begun.warnings == b.warnings[t := told] ==>
              Keep(env, begun, t, output) ==
              if env.autoSave then begun.(store := put.store, warnings := b.warnings[t := told + put.warnings]) else begun
  {
    forall begun: CrewState<Store> | begun.store == b.store && begun.warnings == b.warnings[t := told]
      ensures begun.warnings[t := Told(begun.warnings, t) + env.put(b.store, t, output).warnings] == b.warnings[t := told + env.put(b.store, t, output).warnings] {
    }
  }

  lemma GroupEventsStep<Store>(env: Env<Store>, tasks: seq<TaskRef>, idxs: seq<nat>, i: nat, g: Snapshot<Store>,
                               seen: nat)
    requires Within(tasks, idxs) && i < |tasks|
    ensures Within(tasks, idxs + [i])
    ensures GroupEvents(env, tasks, idxs + [i], g, seen) == GroupEvents(env, tasks, idxs, g, seen) + [GroupEvent(env, tasks, g, seen, i)]
  {
    hide GroupEvent;
  }

  lemma PlayStep<Store>(env: Env<Store>, tasks: seq<TaskRef>, st: CrewState<Store>, events: seq<Event>, e: Event)
    requires EventsWithin(tasks, events) && e.i < |tasks|
    ensures EventsWithin(tasks, events + [e]) && Play(env, tasks, st, events + [e]) == PlayOne(env, tasks, Play(env, tasks, st, events), e)
  {
    hide PlayOne;
    assert (events + [e])[..|events|] == events;
  }

  lemma DistinctFront(tasks: seq<TaskRef>, idxs: seq<nat>, i: nat)
    requires Within(tasks, idxs) && i < |tasks| && Distinct(TasksAt(tasks, idxs + [i]))
    ensures Distinct(TasksAt(tasks, idxs)) && tasks[i] !in TasksAt(tasks, idxs)
  {
    AppendTask(tasks, idxs, i);
    var ts, all := TasksAt(tasks, idxs), TasksAt(tasks, idxs + [i]);
    forall k | 0 <= k < |ts| ensures ts[k] != tasks[i] {
      assert all[k] == ts[k] && all[|ts|] == tasks[i];
    }
  }

  lemma EmptyBarrier<Store>(env: Env<Store>, tasks: seq<TaskRef>, st: CrewState<Store>, seen: nat)
    ensures Barrier(env, tasks, [], st) == st == Play(env, tasks, st, GroupEvents(env, tasks, [], SnapshotOf(st), seen))
  {
  }

  /** A group is its tasks' events, one after another. */
  lemma {:induction false} GroupPlays<Store>(env: Env<Store>, tasks: seq<TaskRef>, idxs: seq<nat>, st: CrewState<Store>,
                                             seen: nat)
    requires Within(tasks, idxs) && Distinct(TasksAt(tasks, idxs))
    ensures Barrier(env, tasks, idxs, st) == Play(env, tasks, st, GroupEvents(env, tasks, idxs, SnapshotOf(st), seen))
  {
    if idxs == [] {
      EmptyBarrier(env, tasks, st, seen);
    } else {
      var front, i := idxs[..|idxs| - 1], idxs[|idxs| - 1];
      assert idxs == front + [i];
      hide Barrier, Play, PlayOne, GroupEvent, GroupEvents, TasksAt, SnapshotOf, Distinct;
      DistinctFront(tasks, front, i);
      GroupPlays(env, tasks, front, st, seen);
      BarrierStep(env, tasks, front, i, st, seen);
      GroupEventsStep(env, tasks, front, i, SnapshotOf(st), seen);
      PlayStep(env, tasks, st, GroupEvents(env, tasks, front, SnapshotOf(st), seen), GroupEvent(env, tasks, SnapshotOf(st), seen, i));
      assert Barrier(env, tasks, idxs, st) == Play(env, tasks, st, GroupEvents(env, tasks, idxs, SnapshotOf(st), seen));
    }
  }

  // ----- the groups of a wave -----

  ghost predicate AllDistinct(tasks: seq<TaskRef>, groups: seq<seq<nat>>)
    requires AllWithin(tasks, groups)
  {
    forall k :: 0 <= k < |groups| ==> Distinct(TasksAt(tasks, groups[k]))
  }

  /** The group, or the groups, run from st complete with end. */
  ghost predicate GroupEnds<Store>(env: Env<Store>, tasks: seq<TaskRef>, idxs: seq<nat>, st: CrewState<Store>,
                                   end: CrewState<Store>) {
    Within(tasks, idxs) && RunGroup(env, tasks, idxs, st) == Completed(end)
  }

  ghost predicate GroupsEnd<Store>(env: Env<Store>, tasks: seq<TaskRef>, groups: seq<seq<nat>>, st: CrewState<Store>,
                                   end: CrewState<Store>) {
    AllWithin(tasks, groups) && RunGroups(env, tasks, groups, st) == Completed(end)
  }

  lemma LastGroup<Store>(env: Env<Store>, tasks: seq<TaskRef>, groups: seq<seq<nat>>, st: CrewState<Store>,
                         end: CrewState<Store>)
    returns (mid: CrewState<Store>)
    requires GroupsEnd(env, tasks, groups, st, end) && groups != []
    ensures GroupsEnd(env, tasks, groups[..|groups| - 1], st, mid) && GroupEnds(env, tasks, groups[|groups| - 1], mid, end)
  {
    hide RunGroup;
    mid := RunGroups(env, tasks, groups[..|groups| - 1], st).state;
  }

  lemma NoGroupsEnd<Store>(env: Env<Store>, tasks: seq<TaskRef>, st: CrewState<Store>, end: CrewState<Store>)
    requires GroupsEnd(env, tasks, [], st, end)
    ensures end == st
  {
  }

  lemma RunGroupIs<Store>(env: Env<Store>, tasks: seq<TaskRef>, idxs: seq<nat>, st: CrewState<Store>,
                          end: CrewState<Store>)
    requires GroupEnds(env, tasks, idxs, st, end)
    ensures Within(tasks, idxs) && end == Barrier(env, tasks, idxs, st)
  {
    hide SeqFold, SeqSave, SeqOutputs, SeqWarnings, OwnError;
  }

  function Trail(events: seq<Event>): (idxs: seq<nat>)
    ensures |idxs| == |events| && forall k :: 0 <= k < |events| ==> idxs[k] == events[k].i
  {
    seq(|events|, k requires 0 <= k < |events| => events[k].i)
  }

  lemma TrailAppend(a: seq<Event>, b: seq<Event>)
    ensures Trail(a + b) == Trail(a) + Trail(b)
  {
  }

  /** One more group after the events so far. */
  lemma NextGroupPlays<Store>(env: Env<Store>, tasks: seq<TaskRef>, idxs: seq<nat>, st: CrewState<Store>,
                              before: seq<Event>, mid: CrewState<Store>, end: CrewState<Store>, seen: nat)
    requires EventsWithin(tasks, before) && mid == Play(env, tasks, st, before)
    requires GroupEnds(env, tasks, idxs, mid, end) && Within(tasks, idxs) && Distinct(TasksAt(tasks, idxs))
    ensures var more := GroupEvents(env, tasks, idxs, SnapshotOf(mid), seen);
            && EventsWithin(tasks, before + more) && Trail(before + more) == Trail(before) + idxs
            && end == Play(env, tasks, st, before + more)
  {
    hide GroupEnds, Play, Barrier, Distinct, GroupEvent;
    var more := GroupEvents(env, tasks, idxs, SnapshotOf(mid), seen);
    RunGroupIs(env, tasks, idxs, mid, end);
    GroupPlays(env, tasks, idxs, mid, seen);
    PlayAppend(env, tasks, st, before, more);
    TrailAppend(before, more);
    assert Trail(more) == idxs;
    assert end == Play(env, tasks, st, before + more);
  }

  /** The k-th event of the m-th group: the group's snapshot is the state its first event finds. */
  ghost predicate GroupEventAt<Store>(env: Env<Store>, tasks: seq<TaskRef>, groups: seq<seq<nat>>, st: CrewState<Store>,
                                      at: nat, events: seq<Event>, m: nat, k: nat) {
    m < |groups| && k < |groups[m]| && groups[m][k] < |tasks| && EventsWithin(tasks, events) &&
    var start := |Flat(groups[..m])|;
    && start + k < |events|
    && events[start + k] == GroupEvent(env, tasks, SnapshotOf(Play(env, tasks, st, events[..start])), at + start, groups[m][k])
  }

  lemma LaterEvents<Store>(env: Env<Store>, tasks: seq<TaskRef>, groups: seq<seq<nat>>, st: CrewState<Store>, at: nat,
                           before: seq<Event>, more: seq<Event>, m: nat, k: nat)
    requires groups != [] && m < |groups| - 1 && EventsWithin(tasks, before + more)
    requires GroupEventAt(env, tasks, groups[..|groups| - 1], st, at, before, m, k)
    ensures GroupEventAt(env, tasks, groups, st, at, before + more, m, k)
  {
    var start := |Flat(groups[..m])|;
    assert groups[..|groups| - 1][..m] == groups[..m];
    assert (before + more)[..start] == before[..start];
    hide Play, Flat, GroupEvent;
  }

  lemma LastEvents<Store>(env: Env<Store>, tasks: seq<TaskRef>, groups: seq<seq<nat>>, st: CrewState<Store>, at: nat,
                          before: seq<Event>, mid: CrewState<Store>, k: nat)
    requires groups != [] && Within(tasks, groups[|groups| - 1]) && k < |groups[|groups| - 1]| && EventsWithin(tasks, before)
    requires |before| == |Flat(groups[..|groups| - 1])| && mid == Play(env, tasks, st, before)
    ensures var more := GroupEvents(env, tasks, groups[|groups| - 1], SnapshotOf(mid), at + |before|);
            GroupEventAt(env, tasks, groups, st, at, before + more, |groups| - 1, k)
  {
    var more := GroupEvents(env, tasks, groups[|groups| - 1], SnapshotOf(mid), at + |before|);
    assert (before + more)[..|before|] == before && (before + more)[|before| + k] == more[k];
    hide Play, Flat, GroupEvent;
  }

  lemma AllDistinctStep(tasks: seq<TaskRef>, groups: seq<seq<nat>>)
    requires groups != [] && AllWithin(tasks, groups) && AllDistinct(tasks, groups)
    ensures AllWithin(tasks, groups[..|groups| - 1]) && AllDistinct(tasks, groups[..|groups| - 1])
    ensures Within(tasks, groups[|groups| - 1]) && Distinct(TasksAt(tasks, groups[|groups| - 1]))
  {
    hide Distinct;
  }

  lemma FlatStep(groups: seq<seq<nat>>)
    requires groups != []
    ensures Flat(groups) == Flat(groups[..|groups| - 1]) + groups[|groups| - 1]
  {
  }

  /** The events of groups that complete: one per task, in order, each with the snapshot of its group. */
  ghost predicate GroupsTold<Store>(env: Env<Store>, tasks: seq<TaskRef>, groups: seq<seq<nat>>, st: CrewState<Store>,
                                    end: CrewState<Store>, at: nat, events: seq<Event>) {
    && EventsWithin(tasks, events) && end == Play(env, tasks, st, events) && Trail(events) == Flat(groups)
    && forall m: nat, k: nat :: m < |groups| && k < |groups[m]| ==> GroupEventAt(env, tasks, groups, st, at, events, m, k)
  }

  lemma NoGroupsTold<Store>(env: Env<Store>, tasks: seq<TaskRef>, st: CrewState<Store>, end: CrewState<Store>, at: nat)
    requires GroupsEnd(env, tasks, [], st, end)
    ensures GroupsTold(env, tasks, [], st, end, at, [])
  {
    NoGroupsEnd(env, tasks, st, end);
    hide GroupsEnd;
  }

  lemma NextGroupTold<Store>(env: Env<Store>, tasks: seq<TaskRef>, groups: seq<seq<nat>>, st: CrewState<Store>,
                             mid: CrewState<Store>, end: CrewState<Store>, at: nat, before: seq<Event>)
    requires groups != [] && GroupsTold(env, tasks, groups[..|groups| - 1], st, mid, at, before)
    requires GroupEnds(env, tasks, groups[|groups| - 1], mid, end)
    requires Within(tasks, groups[|groups| - 1]) && Distinct(TasksAt(tasks, groups[|groups| - 1]))
    ensures GroupsTold(env, tasks, groups, st, end, at,
                       before + GroupEvents(env, tasks, groups[|groups| - 1], SnapshotOf(mid), at + |before|))
  {
    hide GroupEnds, GroupEvents, Play, Distinct, Flat, TasksAt, SnapshotOf, GroupEventAt;
    var front, last := groups[..|groups| - 1], groups[|groups| - 1];
    var more := GroupEvents(env, tasks, last, SnapshotOf(mid), at + |before|);
    FlatStep(groups);
    NextGroupPlays(env, tasks, last, st, before, mid, end, at + |before|);
    assert |Trail(before)| == |before|;
    forall m: nat, k: nat | m < |groups| && k < |groups[m]| ensures GroupEventAt(env, tasks, groups, st, at, before + more, m, k) {
      if m < |front| {
        assert front[m] == groups[m];
        LaterEvents(env, tasks, groups, st, at, before, more, m, k);
      } else {
        LastEvents(env, tasks, groups, st, at, before, mid, k);
      }
    }
    hide EventsWithin, Trail;
    assert GroupsTold(env, tasks, groups, st, end, at, before + more);
  }

  lemma {:induction false} GroupsPlay<Store>(env: Env<Store>, tasks: seq<TaskRef>, groups: seq<seq<nat>>,
                                             st: CrewState<Store>, end: CrewState<Store>, at: nat)
    returns (events: seq<Event>)
    requires AllWithin(tasks, groups) && AllDistinct(tasks, groups) && GroupsEnd(env, tasks, groups, st, end)
    ensures GroupsTold(env, tasks, groups, st, end, at, events)
  {
    hide GroupsEnd, GroupEnds, GroupEvents, GroupsTold, Distinct, AllDistinct, TasksAt, SnapshotOf;
    if groups == [] {
      NoGroupsTold(env, tasks, st, end, at);
      events := [];
    } else {
      var mid := LastGroup(env, tasks, groups, st, end);
      AllDistinctStep(tasks, groups);
      var before := GroupsPlay(env, tasks, groups[..|groups| - 1], st, mid, at);
      NextGroupTold(env, tasks, groups, st, mid, end, at, before);
      events := before + GroupEvents(env, tasks, groups[|groups| - 1], SnapshotOf(mid), at + |before|);
    }
    assert GroupsTold(env, tasks, groups, st, end, at, events);
  }

  // ----- order -----

  /** i stands before j in s. */
  ghost predicate Precede(s: seq<nat>, i: nat, j: nat) {
    exists p, q :: 0 <= p < q < |s| && s[p] == i && s[q] == j
  }

  /** s lists members of wave in the order they have there. */
  ghost predicate InOrder(wave: seq<nat>, s: seq<nat>) {
    forall a, b :: 0 <= a < b < |s| ==> Precede(wave, s[a], s[b])
  }

  lemma PrecedeMore(s: seq<nat>, more: seq<nat>, i: nat, j: nat)
    requires Precede(s, i, j)
    ensures Precede(s + more, i, j)
  {
    var p, q :| 0 <= p < q < |s| && s[p] == i && s[q] == j;
    assert (s + more)[p] == i && (s + more)[q] == j;
  }

  /** One more member at the end of both. */
  lemma InOrderMore(wave: seq<nat>, s: seq<nat>, i: nat)
    requires InOrder(wave, s) && forall k :: 0 <= k < |s| ==> s[k] in wave
    ensures InOrder(wave + [i], s) && InOrder(wave + [i], s + [i])
  {
    hide Precede;
    forall a, b | 0 <= a < b < |s + [i]| ensures Precede(wave + [i], (s + [i])[a], (s + [i])[b]) {
      if b < |s| {
        PrecedeMore(wave, [i], s[a], s[b]);
      } else {
        PrecedeLast(wave, s[a], i);
      }
    }
    forall a, b | 0 <= a < b < |s| ensures Precede(wave + [i], s[a], s[b]) {
      PrecedeMore(wave, [i], s[a], s[b]);
    }
  }

  lemma PrecedeLast(wave: seq<nat>, i: nat, j: nat)
    requires i in wave
    ensures Precede(wave + [j], i, j)
  {
    var p :| 0 <= p < |wave| && wave[p] == i;
    assert (wave + [j])[p] == i && (wave + [j])[|wave|] == j;
  }

  lemma InOrderThrough(wave: seq<nat>, mid: seq<nat>, s: seq<nat>)
    requires InOrder(wave, mid) && InOrder(mid, s)
    ensures InOrder(wave, s)
  {
    forall a, b | 0 <= a < b < |s| ensures Precede(wave, s[a], s[b]) {
      assert Precede(mid, s[a], s[b]);
      var p, q :| 0 <= p < q < |mid| && mid[p] == s[a] && mid[q] == s[b];
      assert Precede(wave, mid[p], mid[q]);
    }
  }

  lemma {:induction false} PickInOrder(idxs: seq<nat>, async: seq<bool>, want: bool)
    ensures InOrder(idxs, Pick(idxs, async, want))
  {
    if idxs != [] {
      var front, i := idxs[..|idxs| - 1], idxs[|idxs| - 1];
      PickInOrder(front, async, want);
      var before := Pick(front, async, want);
      forall k | 0 <= k < |before| ensures before[k] in front {
        assert before[k] in before;
      }
      InOrderMore(front, before, i);
      assert idxs == front + [i];
    }
  }

  // ----- skips -----

  /** dep is the first of these tasks that has failed. */
  ghost predicate FirstOf(context: seq<TaskRef>, dep: TaskRef, failed: FailedTasks) {
    exists p :: 0 <= p < |context| && context[p] == dep && dep in failed && forall q :: 0 <= q < p ==> context[q] !in failed
  }

  lemma {:induction false} FirstFailedIs(failed: FailedTasks, context: seq<TaskRef>)
    ensures var err := FailedUpstream(failed, context);
            && (err.None? ==> forall d :: d in context ==> d !in failed)
            && (err.Some? ==>
                  && err.value.DependencyFailed? && err.value.dep in failed && err.value.cause == failed[err.value.dep]
                  && err.value.dep in context && FirstOf(context, err.value.dep, failed))
  {
    if context != [] {
      FirstFailedIs(failed, context[1..]);
      assert context == [context[0]] + context[1..];
      var err := FailedUpstream(failed, context);
      if context[0] in failed {
        assert context[0] == err.value.dep;
      } else if err.Some? {
        var p :| 0 <= p < |context[1..]| && context[1..][p] == err.value.dep && forall q :: 0 <= q < p ==> context[1..][q] !in failed;
        assert context[p + 1] == err.value.dep;
        forall q | 0 <= q < p + 1 ensures context[q] !in failed {
          assert q > 0 ==> context[q] == context[1..][q - 1];
        }
      }
    }
  }

  ghost function SkipEvents<Store>(env: Env<Store>, tasks: seq<TaskRef>, wave: seq<nat>, failed: FailedTasks): (events: seq<Event>)
    requires Within(tasks, wave)
    ensures EventsWithin(tasks, events) && |events| + |SkipPass(env, tasks, wave, failed).remaining| == |wave|
  {
    if wave == [] then []
    else
      var before := SkipEvents(env, tasks, wave[..|wave| - 1], failed);
      var i := wave[|wave| - 1];
      var err := FailedUpstream(SkipPass(env, tasks, wave[..|wave| - 1], failed).failed, env.context(tasks[i]));
      FirstFailedIs(SkipPass(env, tasks, wave[..|wave| - 1], failed).failed, env.context(tasks[i]));
      if err.Some? then before + [Skipped(i, err.value.dep)] else before
  }

  lemma {:induction false} SkipsPlay<Store>(env: Env<Store>, tasks: seq<TaskRef>, wave: seq<nat>, st: CrewState<Store>)
    requires Within(tasks, wave)
    ensures Play(env, tasks, st, SkipEvents(env, tasks, wave, st.failed)) == st.(failed := SkipPass(env, tasks, wave, st.failed).failed)
  {
    if wave != [] {
      var front, i := wave[..|wave| - 1], wave[|wave| - 1];
      SkipsPlay(env, tasks, front, st);
      var before := SkipEvents(env, tasks, front, st.failed);
      var failed := SkipPass(env, tasks, front, st.failed).failed;
      FirstFailedIs(failed, env.context(tasks[i]));
      var err := FailedUpstream(failed, env.context(tasks[i]));
      if err.Some? {
        PlayStep(env, tasks, st, before, Skipped(i, err.value.dep));
      }
    }
  }

  /** Skipped and remaining tasks both keep the order of the wave. */
  lemma {:induction false} SkipsInOrder<Store>(env: Env<Store>, tasks: seq<TaskRef>, wave: seq<nat>, failed: FailedTasks)
    requires Within(tasks, wave)
    ensures var skips, left := Trail(SkipEvents(env, tasks, wave, failed)), SkipPass(env, tasks, wave, failed).remaining;
            && InOrder(wave, skips) && InOrder(wave, left)
            && forall i: nat :: i in wave <==> i in skips || i in left
  {
    if wave != [] {
      var front, i := wave[..|wave| - 1], wave[|wave| - 1];
      SkipsInOrder(env, tasks, front, failed);
      var skips, left := Trail(SkipEvents(env, tasks, front, failed)), SkipPass(env, tasks, front, failed).remaining;
      assert wave == front + [i];
      var before := SkipPass(env, tasks, front, failed).failed;
      var err := FailedUpstream(before, env.context(tasks[i]));
      FirstFailedIs(before, env.context(tasks[i]));
      hide InOrder, FailedUpstream;
      SplitMore(front, skips, left, i, err.Some?);
      if err.Some? {
        TrailAppend(SkipEvents(env, tasks, front, failed), [Skipped(i, err.value.dep)]);
        assert Trail([Skipped(i, err.value.dep)]) == [i];
      }
    } else {
      assert Trail(SkipEvents(env, tasks, wave, failed)) == [];
    }
  }

  lemma SplitMore(wave: seq<nat>, skips: seq<nat>, left: seq<nat>, i: nat, skip: bool)
    requires InOrder(wave, skips) && InOrder(wave, left) && forall j: nat :: j in wave <==> j in skips || j in left
    ensures var skips', left' := if skip then skips + [i] else skips, if skip then left else left + [i];
            && InOrder(wave + [i], skips') && InOrder(wave + [i], left')
            && forall j: nat :: j in wave + [i] <==> j in skips' || j in left'
  {
    forall k | 0 <= k < |skips| ensures skips[k] in wave {
      assert skips[k] in skips;
    }
    forall k | 0 <= k < |left| ensures left[k] in wave {
      assert left[k] in left;
    }
    InOrderMore(wave, skips, i);
    InOrderMore(wave, left, i);
    hide InOrder;
  }

  /** The pass changes nothing about tasks outside the wave, so a skip's dependency had failed before the wave. */
  lemma {:induction false} SkipsRight<Store>(env: Env<Store>, tasks: seq<TaskRef>, wave: seq<nat>, failed: FailedTasks,
                                             all: seq<nat>)
    requires Within(tasks, wave) && Unrelated(env, tasks, all) && forall i: nat :: i in wave ==> i in all
    ensures forall u: TaskRef :: OutsideOf(tasks, all, u) ==> Get(SkipPass(env, tasks, wave, failed).failed, u) == Get(failed, u)
    ensures forall k: nat :: k < |SkipEvents(env, tasks, wave, failed)| ==> SkipRight(env, tasks, failed, SkipEvents(env, tasks, wave, failed)[k])
  {
    if wave != [] {
      var front, i := wave[..|wave| - 1], wave[|wave| - 1];
      assert wave == front + [i] && i in wave;
      SkipsRight(env, tasks, front, failed, all);
      var before := SkipPass(env, tasks, front, failed).failed;
      FirstFailedIs(before, env.context(tasks[i]));
      forall d | d in env.context(tasks[i]) ensures d in before <==> d in failed {
        assert OutsideOf(tasks, all, d);
        assert Get(before, d) == Get(failed, d);
      }
      SameFirst(env.context(tasks[i]), before, failed);
    }
  }

  ghost predicate OutsideOf(tasks: seq<TaskRef>, wave: seq<nat>, u: TaskRef) {
    forall j: nat :: j in wave && j < |tasks| ==> tasks[j] != u
  }

  ghost predicate SkipRight<Store>(env: Env<Store>, tasks: seq<TaskRef>, failed: FailedTasks, e: Event) {
    e.Skipped? && e.i < |tasks| && FirstOf(env.context(tasks[e.i]), e.dep, failed)
  }

  lemma SameFirst(context: seq<TaskRef>, a: FailedTasks, b: FailedTasks)
    requires forall d :: d in context ==> (d in a <==> d in b)
    ensures forall dep :: FirstOf(context, dep, a) <==> FirstOf(context, dep, b)
  {
  }

  // ----- chunks -----

  /** Where the chunk of the p-th Async task begins: the last multiple of n not after p; 0 without a cap. */
  function ChunkStart(p: nat, n: nat): (start: nat)
    ensures start <= p && (n == 0 ==> start == 0) && (n > 0 ==> p - start < n)
  {
    if n == 0 || p < n then 0 else n + ChunkStart(p - n, n)
  }

  function ChunkNumber(p: nat, n: nat): nat {
    if n == 0 || p < n then 0 else 1 + ChunkNumber(p - n, n)
  }

  ghost predicate ChunkHolds(idxs: seq<nat>, n: nat, p: nat) {
    p < |idxs| &&
    var m, start := ChunkNumber(p, n), ChunkStart(p, n);
    && m < |Chunks(idxs, n)| && |Flat(Chunks(idxs, n)[..m])| == start
    && p - start < |Chunks(idxs, n)[m]| && Chunks(idxs, n)[m][p - start] == idxs[p]
  }

  lemma FirstChunk(idxs: seq<nat>, n: nat, p: nat)
    requires p < |idxs| && (n == 0 || |idxs| <= n || p < n)
    ensures ChunkHolds(idxs, n, p)
  {
    assert Chunks(idxs, n)[..0] == [] && Flat([]) == [];
    assert ChunkNumber(p, n) == 0 && ChunkStart(p, n) == 0;
    assert Chunks(idxs, n)[0] == if n == 0 || |idxs| <= n then idxs else idxs[..n];
  }

  lemma LaterChunk(idxs: seq<nat>, n: nat, p: nat)
    requires n > 0 && |idxs| > n && n <= p < |idxs| && ChunkHolds(idxs[n..], n, p - n)
    ensures ChunkHolds(idxs, n, p)
  {
    var m, rest := ChunkNumber(p - n, n), Chunks(idxs[n..], n);
    var chunks := Chunks(idxs, n);
    assert chunks == [idxs[..n]] + rest && chunks[..m + 1] == [idxs[..n]] + rest[..m];
    assert ChunkNumber(p, n) == m + 1 && ChunkStart(p, n) == n + ChunkStart(p - n, n);
    hide Chunks, ChunkStart, ChunkNumber, Flat;
    FlatAppend([idxs[..n]], rest[..m]);
    FlatOne(idxs[..n]);
    assert chunks[m + 1] == rest[m];
  }

  lemma {:induction false} ChunkFor(idxs: seq<nat>, n: nat, p: nat)
    requires p < |idxs|
    ensures ChunkHolds(idxs, n, p)
    decreases p
  {
    hide ChunkHolds;
    if n == 0 || |idxs| <= n || p < n {
      FirstChunk(idxs, n, p);
    } else {
      ChunkFor(idxs[n..], n, p - n);
      LaterChunk(idxs, n, p);
    }
  }

  lemma FlatOne(idxs: seq<nat>)
    ensures Flat([idxs]) == idxs
  {
    assert [idxs][..0] == [] && Flat([idxs]) == Flat([]) + idxs;
  }

  ghost predicate Place(groups: seq<seq<nat>>, order: seq<nat>, m: nat, start: nat, k: nat) {
    && k < |order| && m < |groups| && |Flat(groups[..m])| == start && start <= k && k - start < |groups[m]|
    && groups[m][k - start] == order[k]
  }

  lemma PlaceAsync(asyncs: seq<nat>, others: seq<nat>, n: nat, k: nat)
    requires k < |asyncs|
    ensures Place(Chunks(asyncs, n) + Singles(others), asyncs + others, ChunkNumber(k, n), ChunkStart(k, n), k)
  {
    hide Flat, Chunks, Singles, ChunkNumber, ChunkStart;
    ChunkFor(asyncs, n, k);
    var m := ChunkNumber(k, n);
    assert (Chunks(asyncs, n) + Singles(others))[..m] == Chunks(asyncs, n)[..m];
    assert (asyncs + others)[k] == asyncs[k];
  }

  lemma SinglesFront(others: seq<nat>, q: nat)
    requires q < |others|
    ensures Singles(others)[..q] == Singles(others[..q]) && Singles(others)[q] == [others[q]]
  {
  }

  lemma PlaceOther(asyncs: seq<nat>, others: seq<nat>, n: nat, q: nat)
    requires q < |others|
    ensures Place(Chunks(asyncs, n) + Singles(others), asyncs + others, |Chunks(asyncs, n)| + q, |asyncs| + q, |asyncs| + q)
  {
    hide Flat, Chunks, Singles;
    var chunks, singles := Chunks(asyncs, n), Singles(others);
    SinglesFront(others, q);
    FlatChunks(asyncs, n);
    FlatSingles(others[..q]);
    FlatAppend(chunks, Singles(others[..q]));
    assert (chunks + singles)[..|chunks| + q] == chunks + singles[..q];
    assert (chunks + singles)[|chunks| + q] == singles[q] && (asyncs + others)[|asyncs| + q] == others[q];
  }

  /** The group and the place in it of the k-th task that runs, of a wave's Async tasks and then its others. */
  lemma PlaceOf(asyncs: seq<nat>, others: seq<nat>, n: nat, k: nat) returns (m: nat, start: nat)
    requires k < |asyncs| + |others|
    ensures start == if k < |asyncs| then ChunkStart(k, n) else k
    ensures Place(Chunks(asyncs, n) + Singles(others), asyncs + others, m, start, k)
  {
    hide Place, Chunks;
    if k < |asyncs| {
      m, start := ChunkNumber(k, n), ChunkStart(k, n);
      PlaceAsync(asyncs, others, n, k);
    } else {
      m, start := |Chunks(asyncs, n)| + (k - |asyncs|), k;
      PlaceOther(asyncs, others, n, k - |asyncs|);
    }
  }

  // ----- the script of a wave -----

  /** The k-th event of a wave that starts in st after `at` events, with s skips and a Async tasks: a skip names the
      first failed dependency; any other task has none, and runs with what it sees at the start of its chunk, or,
      not being Async, right before it. */
  ghost predicate EventRight<Store>(env: Env<Store>, r: Roster, st: CrewState<Store>, at: nat, events: seq<Event>,
                                    s: nat, a: nat, k: nat)
    requires EventsWithin(r.tasks, events) && k < |events|
  {
    var e := events[k];
    var t := r.tasks[e.i];
    if k < s then SkipRight(env, r.tasks, st.failed, e)
    else
      && (forall d :: d in env.context(t) ==> d !in st.failed)
      && (k < s + a <==> e.i < |r.async| && r.async[e.i])
      && if !env.hasAgent(t) then e == Idle(e.i)
         else
           var start := if k < s + a then s + ChunkStart(k - s, env.maxWorkers) else k;
           start <= k &&
           var before := Play(env, r.tasks, st, events[..start]);
           e == Ran(e.i, at + start, env.run(t, Sees(env, t, before.outputs, before.store)))
  }

  /** A wave's events: each of its tasks once, the skips first, then the Async tasks, then the others, each kind in
      the order of the wave. */
  ghost predicate WaveScript<Store>(env: Env<Store>, r: Roster, wave: seq<nat>, st: CrewState<Store>, at: nat,
                                    events: seq<Event>, s: nat, a: nat) {
    && EventsWithin(r.tasks, events) && s + a <= |events|
    && Distinct(Trail(events)) && (forall i: nat :: i in Trail(events) <==> i in wave)
    && InOrder(wave, Trail(events)[..s]) && InOrder(wave, Trail(events)[s..s + a]) && InOrder(wave, Trail(events)[s + a..])
    && forall k: nat :: k < |events| ==> EventRight(env, r, st, at, events, s, a, k)
  }

  ghost predicate ScriptedWave<Store>(env: Env<Store>, r: Roster, wave: seq<nat>, st: CrewState<Store>, at: nat,
                                      events: seq<Event>) {
    exists s: nat, a: nat :: WaveScript(env, r, wave, st, at, events, s, a)
  }

  /** The events of a run: those of its waves, one wave after another. */
  ghost predicate RunScript<Store>(env: Env<Store>, r: Roster, waves: seq<seq<nat>>, st: CrewState<Store>,
                                   events: seq<Event>)
    requires EventsWithin(r.tasks, events)
    decreases waves, 1
  {
    if waves == [] then events == []
    else exists n: nat :: n <= |events| && LastWave(env, r, waves, st, events, n)
  }

  ghost predicate LastWave<Store>(env: Env<Store>, r: Roster, waves: seq<seq<nat>>, st: CrewState<Store>,
                                  events: seq<Event>, n: nat)
    requires EventsWithin(r.tasks, events) && waves != [] && n <= |events|
    decreases waves, 0
  {
    && RunScript(env, r, waves[..|waves| - 1], st, events[..n])
    && ScriptedWave(env, r, waves[|waves| - 1], Play(env, r.tasks, st, events[..n]), n, events[n..])
  }

  // ----- a completed wave has a script -----

  /** What a group event is, after the skips. */
  lemma AfterSkips<Store>(env: Env<Store>, tasks: seq<TaskRef>, groups: seq<seq<nat>>, st: CrewState<Store>, at: nat,
                          skips: seq<Event>, more: seq<Event>, m: nat, k: nat)
    requires EventsWithin(tasks, skips)
    requires GroupEventAt(env, tasks, groups, Play(env, tasks, st, skips), at + |skips|, more, m, k)
    ensures EventsWithin(tasks, skips + more)
    ensures var start := |skips| + |Flat(groups[..m])|;
            && start + k < |skips + more|
            && var before := Play(env, tasks, st, (skips + more)[..start]);
               (skips + more)[start + k] == GroupEvent(env, tasks, SnapshotOf(before), at + start, groups[m][k])
  {
    hide Play, Flat, GroupEvent, SnapshotOf;
    var start := |Flat(groups[..m])|;
    PlayAppend(env, tasks, st, skips, more[..start]);
    assert (skips + more)[..|skips| + start] == skips + more[..start];
  }

  /** The event of a task that is not skipped, the k-th of those. */
  lemma PlacedRight<Store>(env: Env<Store>, r: Roster, groups: seq<seq<nat>>, st: CrewState<Store>, at: nat,
                           skips: seq<Event>, more: seq<Event>, m: nat, start: nat, a: nat, i: nat, k: nat)
    requires EventsWithin(r.tasks, skips) && start <= k
    requires GroupEventAt(env, r.tasks, groups, Play(env, r.tasks, st, skips), at + |skips|, more, m, k - start)
    requires |Flat(groups[..m])| == start && groups[m][k - start] == i < |r.tasks|
    requires start == (if k < a then ChunkStart(k, env.maxWorkers) else k) && (k < a <==> i < |r.async| && r.async[i])
    requires forall d :: d in env.context(r.tasks[i]) ==> d !in st.failed
    ensures EventsWithin(r.tasks, skips + more) && |skips| + k < |skips + more|
    ensures EventRight(env, r, st, at, skips + more, |skips|, a, |skips| + k)
  {
    hide Play, Flat, GroupEvent, GroupEventAt, EventRight, SnapshotOf, ChunkStart;
    AfterSkips(env, r.tasks, groups, st, at, skips, more, m, k - start);
    RightAfter(env, r, st, at, skips + more, |skips|, a, i, start, k);
  }

  /** EventRight for a task that is not skipped. */
  ghost predicate RightThere<Store>(env: Env<Store>, r: Roster, st: CrewState<Store>, at: nat, events: seq<Event>, k: nat,
                                    start: nat, async: bool)
    requires EventsWithin(r.tasks, events) && k < |events| && start <= k
  {
    var e := events[k];
    var t := r.tasks[e.i];
    var before := Play(env, r.tasks, st, events[..start]);
    && (forall d :: d in env.context(t) ==> d !in st.failed)
    && (async <==> e.i < |r.async| && r.async[e.i])
    && e == if env.hasAgent(t) then Ran(e.i, at + start, env.run(t, Sees(env, t, before.outputs, before.store))) else Idle(e.i)
  }

  lemma ThereRight<Store>(env: Env<Store>, r: Roster, st: CrewState<Store>, at: nat, events: seq<Event>, s: nat, a: nat,
                          k: nat, start: nat)
    requires EventsWithin(r.tasks, events) && s + k < |events| && start <= k
    requires start == (if k < a then ChunkStart(k, env.maxWorkers) else k)
    requires RightThere(env, r, st, at, events, s + k, s + start, k < a)
    ensures EventRight(env, r, st, at, events, s, a, s + k)
  {
    hide Play, Sees, ChunkStart, SkipRight;
  }

  lemma RightAfter<Store>(env: Env<Store>, r: Roster, st: CrewState<Store>, at: nat, events: seq<Event>, s: nat,
                          a: nat, i: nat, start: nat, k: nat)
    requires EventsWithin(r.tasks, events) && s + k < |events| && start <= k && i < |r.tasks|
    requires start == (if k < a then ChunkStart(k, env.maxWorkers) else k) && (k < a <==> i < |r.async| && r.async[i])
    requires events[s + k] == GroupEvent(env, r.tasks, SnapshotOf(Play(env, r.tasks, st, events[..s + start])), at + s + start, i)
    requires forall d :: d in env.context(r.tasks[i]) ==> d !in st.failed
    ensures EventRight(env, r, st, at, events, s, a, s + k)
  {
    hide Play, Sees, ChunkStart, EventRight, GroupEvent;
    GroupEventIs(env, r.tasks, SnapshotOf(Play(env, r.tasks, st, events[..s + start])), at + s + start, i);
    assert events[s + k].i == i;
    assert RightThere(env, r, st, at, events, s + k, s + start, k < a);
    hide RightThere;
    ThereRight(env, r, st, at, events, s, a, k, start);
  }

  lemma GroupEventIs<Store>(env: Env<Store>, tasks: seq<TaskRef>, g: Snapshot<Store>, seen: nat, i: nat)
    requires i < |tasks|
    ensures GroupEvent(env, tasks, g, seen, i) ==
            if env.hasAgent(tasks[i]) then Ran(i, seen, env.run(tasks[i], Sees(env, tasks[i], g.outputs, g.store))) else Idle(i)
  {
    SeesIs(env, g, tasks[i]);
    hide OwnEnd, Sees;
  }

  // ----- a completed wave has a script -----

  lemma GroupsDistinct<Store>(env: Env<Store>, r: Roster, wave: seq<nat>, remaining: seq<nat>)
    requires WaveIndependent(env, r.tasks, wave) && Within(r.tasks, remaining) && Distinct(remaining)
    requires forall i: nat :: i in remaining ==> i in wave
    ensures AllWithin(r.tasks, GroupsOf(r, env.maxWorkers, remaining)) && AllDistinct(r.tasks, GroupsOf(r, env.maxWorkers, remaining))
  {
    GroupsWithin(r, env.maxWorkers, remaining);
    var groups := GroupsOf(r, env.maxWorkers, remaining);
    hide GroupsOf, WaveIndependent;
    forall k: nat | k < |groups| ensures Distinct(TasksAt(r.tasks, groups[k])) {
      GroupReady(env, r, wave, remaining, k);
      assert Independent(env, TasksAt(r.tasks, groups[k]));
    }
  }

  /** The order of a wave's events, skips first. */
  ghost predicate Parted(wave: seq<nat>, all: seq<nat>, s: nat, a: nat) {
    && s + a <= |all|
    && InOrder(wave, all[..s]) && InOrder(wave, all[s..s + a]) && InOrder(wave, all[s + a..])
    && forall i: nat :: i in all <==> i in wave
  }

  lemma PartedFrom(wave: seq<nat>, x: seq<nat>, y: seq<nat>, z: seq<nat>)
    requires InOrder(wave, x) && InOrder(wave, y) && InOrder(wave, z)
    requires forall i: nat :: i in wave <==> i in x || i in y || i in z
    ensures Parted(wave, x + (y + z), |x|, |y|)
  {
    hide InOrder;
    var all := x + (y + z);
    assert all[..|x|] == x && all[|x|..|x| + |y|] == y && all[|x| + |y|..] == z;
    assert Parted(wave, all, |x|, |y|);
  }

  lemma PartsInOrder(r: Roster, wave: seq<nat>, skips: seq<nat>, left: seq<nat>)
    requires InOrder(wave, skips) && InOrder(wave, left) && forall i: nat :: i in wave <==> i in skips || i in left
    ensures Parted(wave, skips + ExecutionOrder(r, left), |skips|, |Pick(left, r.async, true)|)
  {
    hide InOrder, Pick, Parted;
    var asyncs, others := Pick(left, r.async, true), Pick(left, r.async, false);
    PickInOrder(left, r.async, true);
    PickInOrder(left, r.async, false);
    InOrderThrough(wave, left, asyncs);
    InOrderThrough(wave, left, others);
    PartedFrom(wave, skips, asyncs, others);
  }

  /** Each task of the wave has one event. */
  lemma OncePerTask(wave: seq<nat>, all: seq<nat>)
    requires Distinct(wave) && |all| == |wave| && forall i: nat :: i in all <==> i in wave
    ensures Distinct(all)
  {
    SetSize(wave);
    if !Distinct(all) {
      var j, k :| 0 <= j < k < |all| && all[j] == all[k];
      var rest := all[..k] + all[k + 1..];
      forall i: nat | i in all ensures i in rest {
        var p :| 0 <= p < |all| && all[p] == i;
        if p == k {
          assert rest[j] == i;
        } else if p < k {
          assert rest[p] == i;
        } else {
          assert rest[p - 1] == i;
        }
      }
      forall i: nat | i in rest ensures i in all {
      }
      assert Members(rest) == Members(wave);
      FewMembers(rest);
    }
  }

  lemma {:induction false} SetSize(s: seq<nat>)
    requires Distinct(s)
    ensures |Members(s)| == |s|
  {
    if s != [] {
      SetSize(s[..|s| - 1]);
      assert s == s[..|s| - 1] + [s[|s| - 1]];
      assert Members(s) == Members(s[..|s| - 1]) + {s[|s| - 1]};
    }
  }

  lemma {:induction false} FewMembers(s: seq<nat>)
    ensures |Members(s)| <= |s|
  {
    if s != [] {
      FewMembers(s[..|s| - 1]);
      assert s == s[..|s| - 1] + [s[|s| - 1]];
      assert Members(s) == Members(s[..|s| - 1]) + {s[|s| - 1]};
    }
  }

  /** The events of a wave that completes, its skips and then its groups. */
  lemma WaveEvents<Store>(env: Env<Store>, r: Roster, waves: seq<seq<nat>>, w: nat, st: CrewState<Store>,
                          end: CrewState<Store>, at: nat)
    returns (skips: seq<Event>, more: seq<Event>)
    requires RosterOk(r) && Planned(env, r.tasks, waves) && w < |waves| && Within(r.tasks, waves[w])
    requires RunWave(env, r, waves[w], st) == Completed(end)
    ensures skips == SkipEvents(env, r.tasks, waves[w], st.failed)
    ensures var left := SkipPass(env, r.tasks, waves[w], st.failed).remaining;
            && Within(r.tasks, left)
            && GroupsTold(env, r.tasks, GroupsOf(r, env.maxWorkers, left), Play(env, r.tasks, st, skips), end, at + |skips|, more)
  {
    hide SkipPass, RunGroups, GroupsOf, Play, GroupsTold, Planned, Skims, Distinct, WaveIndependent, SkipEvents, AllDistinct;
    var wave := waves[w];
    PlannedIndependent(env, r.tasks, waves, w);
    WaveSkims(env, r.tasks, waves, w, st.failed);
    SkipPassSubset(env, r.tasks, wave, st.failed);
    SkipsPlay(env, r.tasks, wave, st);
    skips := SkipEvents(env, r.tasks, wave, st.failed);
    var skim := SkipPass(env, r.tasks, wave, st.failed);
    GroupsDistinct(env, r, wave, skim.remaining);
    var mid := st.(failed := skim.failed);
    assert GroupsEnd(env, r.tasks, GroupsOf(r, env.maxWorkers, skim.remaining), mid, end);
    more := GroupsPlay(env, r.tasks, GroupsOf(r, env.maxWorkers, skim.remaining), mid, end, at + |skips|);
  }

  lemma {:induction false} PickLengths(idxs: seq<nat>, async: seq<bool>)
    ensures |Pick(idxs, async, true)| + |Pick(idxs, async, false)| == |idxs|
  {
    if idxs != [] {
      PickLengths(idxs[..|idxs| - 1], async);
    }
  }

  lemma SkipPartRight<Store>(env: Env<Store>, r: Roster, waves: seq<seq<nat>>, w: nat, st: CrewState<Store>, at: nat,
                             skips: seq<Event>, more: seq<Event>, a: nat, k: nat)
    requires Planned(env, r.tasks, waves) && w < |waves| && Within(r.tasks, waves[w])
    requires skips == SkipEvents(env, r.tasks, waves[w], st.failed) && k < |skips| && EventsWithin(r.tasks, skips + more)
    ensures EventRight(env, r, st, at, skips + more, |skips|, a, k)
  {
    hide SkipEvents, Planned, SkipRight, SkipPass;
    WaveUnrelated(env, r.tasks, waves, w);
    SkipsRight(env, r.tasks, waves[w], st.failed, waves[w]);
    assert SkipRight(env, r.tasks, st.failed, skips[k]) && (skips + more)[k] == skips[k];
  }

  lemma WaveUnrelated<Store>(env: Env<Store>, tasks: seq<TaskRef>, waves: seq<seq<nat>>, w: nat)
    requires Planned(env, tasks, waves) && w < |waves| && Within(tasks, waves[w])
    ensures Unrelated(env, tasks, waves[w])
  {
    var wave := waves[w];
    forall i: nat, j: nat | i in wave && j in wave && i < |tasks| && j < |tasks|
      ensures tasks[j] !in env.context(tasks[i]) {
      NoEdgeInWave(env, tasks, waves, w, i, j);
    }
  }

  lemma RanPartRight<Store>(env: Env<Store>, r: Roster, waves: seq<seq<nat>>, w: nat, st: CrewState<Store>,
                            end: CrewState<Store>, at: nat, skips: seq<Event>, more: seq<Event>, k: nat)
    requires Planned(env, r.tasks, waves) && w < |waves| && Within(r.tasks, waves[w]) && EventsWithin(r.tasks, skips)
    requires var left := SkipPass(env, r.tasks, waves[w], st.failed).remaining;
             && Within(r.tasks, left) && k < |left|
             && GroupsTold(env, r.tasks, GroupsOf(r, env.maxWorkers, left), Play(env, r.tasks, st, skips), end, at + |skips|, more)
    ensures EventsWithin(r.tasks, skips + more) && |skips| + k < |skips + more|
    ensures EventRight(env, r, st, at, skips + more, |skips|, |Pick(SkipPass(env, r.tasks, waves[w], st.failed).remaining, r.async, true)|, |skips| + k)
  {
    hide SkipPass, Pick, Play, Flat, Planned, Skims, Chunks, Singles, GroupEventAt, EventRight, Upstream, ChunkStart, GroupsTold, Place;
    var left := SkipPass(env, r.tasks, waves[w], st.failed).remaining;
    var asyncs, others := Pick(left, r.async, true), Pick(left, r.async, false);
    PickLengths(left, r.async);
    WaveSkims(env, r.tasks, waves, w, st.failed);
    LeftTask(env, r, waves[w], st.failed, SkipPass(env, r.tasks, waves[w], st.failed), asyncs, others, k);
    var m, start := PlaceOf(asyncs, others, env.maxWorkers, k);
    GroupRight(env, r, GroupsOf(r, env.maxWorkers, left), st, end, at, skips, more, asyncs + others, |asyncs|, m, start, k);
  }

  lemma GroupRight<Store>(env: Env<Store>, r: Roster, groups: seq<seq<nat>>, st: CrewState<Store>, end: CrewState<Store>,
                          at: nat, skips: seq<Event>, more: seq<Event>, order: seq<nat>, a: nat, m: nat, start: nat, k: nat)
    requires EventsWithin(r.tasks, skips) && GroupsTold(env, r.tasks, groups, Play(env, r.tasks, st, skips), end, at + |skips|, more)
    requires Place(groups, order, m, start, k) && order[k] < |r.tasks|
    requires start == (if k < a then ChunkStart(k, env.maxWorkers) else k) && (k < a <==> order[k] < |r.async| && r.async[order[k]])
    requires forall d :: d in env.context(r.tasks[order[k]]) ==> d !in st.failed
    ensures EventsWithin(r.tasks, skips + more) && |skips| + k < |skips + more|
    ensures EventRight(env, r, st, at, skips + more, |skips|, a, |skips| + k)
  {
    hide Play, Flat, GroupEventAt, EventRight, ChunkStart;
    assert GroupEventAt(env, r.tasks, groups, Play(env, r.tasks, st, skips), at + |skips|, more, m, k - start);
    hide GroupsTold;
    PlacedRight(env, r, groups, st, at, skips, more, m, start, a, order[k], k);
  }

  lemma LeftTask<Store>(env: Env<Store>, r: Roster, wave: seq<nat>, failed: FailedTasks, skim: Skim, asyncs: seq<nat>,
                        others: seq<nat>, k: nat)
    requires Skims(env, r.tasks, wave, failed, skim) && Within(r.tasks, skim.remaining) && k < |asyncs| + |others|
    requires asyncs == Pick(skim.remaining, r.async, true) && others == Pick(skim.remaining, r.async, false)
    ensures var i := (asyncs + others)[k];
            && i < |r.tasks| && (k < |asyncs| <==> i < |r.async| && r.async[i])
            && forall d :: d in env.context(r.tasks[i]) ==> d !in failed
  {
    hide Pick;
    var i := (asyncs + others)[k];
    assert if k < |asyncs| then i == asyncs[k] && i in asyncs else i == others[k - |asyncs|] && i in others;
    assert i in skim.remaining;
    assert !Upstream(env, failed, r.tasks[i]);
  }

  lemma AllRight<Store>(env: Env<Store>, r: Roster, waves: seq<seq<nat>>, w: nat, st: CrewState<Store>,
                        end: CrewState<Store>, at: nat, skips: seq<Event>, more: seq<Event>)
    requires Planned(env, r.tasks, waves) && w < |waves| && Within(r.tasks, waves[w])
    requires skips == SkipEvents(env, r.tasks, waves[w], st.failed) && EventsWithin(r.tasks, skips + more)
    requires var left := SkipPass(env, r.tasks, waves[w], st.failed).remaining;
             && Within(r.tasks, left) && |more| == |left|
             && GroupsTold(env, r.tasks, GroupsOf(r, env.maxWorkers, left), Play(env, r.tasks, st, skips), end, at + |skips|, more)
    ensures forall k: nat :: k < |skips + more| ==>
              EventRight(env, r, st, at, skips + more, |skips|, |Pick(SkipPass(env, r.tasks, waves[w], st.failed).remaining, r.async, true)|, k)
  {
    hide SkipPass, Pick, Play, Planned, EventRight, SkipEvents, GroupsTold;
    var a := |Pick(SkipPass(env, r.tasks, waves[w], st.failed).remaining, r.async, true)|;
    forall k: nat | k < |skips + more| ensures EventRight(env, r, st, at, skips + more, |skips|, a, k) {
      if k < |skips| {
        SkipPartRight(env, r, waves, w, st, at, skips, more, a, k);
      } else {
        RanPartRight(env, r, waves, w, st, end, at, skips, more, k - |skips|);
      }
    }
  }

  lemma ToldEvents<Store>(env: Env<Store>, tasks: seq<TaskRef>, groups: seq<seq<nat>>, st: CrewState<Store>,
                          end: CrewState<Store>, at: nat, skips: seq<Event>, more: seq<Event>)
    requires EventsWithin(tasks, skips) && GroupsTold(env, tasks, groups, Play(env, tasks, st, skips), end, at, more)
    ensures EventsWithin(tasks, skips + more) && end == Play(env, tasks, st, skips + more) && Trail(more) == Flat(groups)
  {
    hide Play, GroupEventAt, Flat;
    PlayAppend(env, tasks, st, skips, more);
  }

  lemma WaveScripted<Store>(env: Env<Store>, r: Roster, waves: seq<seq<nat>>, w: nat, st: CrewState<Store>,
                            end: CrewState<Store>, at: nat)
    returns (events: seq<Event>)
    requires RosterOk(r) && Planned(env, r.tasks, waves) && w < |waves| && Within(r.tasks, waves[w])
    requires RunWave(env, r, waves[w], st) == Completed(end)
    ensures EventsWithin(r.tasks, events) && end == Play(env, r.tasks, st, events)
    ensures ScriptedWave(env, r, waves[w], st, at, events)
  {
    hide RunWave, SkipPass, Pick, Play, Flat, Planned, EventRight, SkipEvents, Parted, Distinct, GroupsTold, GroupsOf, ScriptedWave;
    var skips, more := WaveEvents(env, r, waves, w, st, end, at);
    var left := SkipPass(env, r.tasks, waves[w], st.failed).remaining;
    ToldEvents(env, r.tasks, GroupsOf(r, env.maxWorkers, left), st, end, at + |skips|, skips, more);
    WaveOrdered(env, r, waves, w, st.failed, skips, more);
    AllRight(env, r, waves, w, st, end, at, skips, more);
    events := skips + more;
    Scripted(env, r, waves[w], st, at, events, |skips|, |Pick(left, r.async, true)|);
    assert EventsWithin(r.tasks, events) && end == Play(env, r.tasks, st, events);
  }

  lemma Scripted<Store>(env: Env<Store>, r: Roster, wave: seq<nat>, st: CrewState<Store>, at: nat, events: seq<Event>,
                        s: nat, a: nat)
    requires EventsWithin(r.tasks, events) && Distinct(Trail(events)) && Parted(wave, Trail(events), s, a)
    requires forall k: nat :: k < |events| ==> EventRight(env, r, st, at, events, s, a, k)
    ensures ScriptedWave(env, r, wave, st, at, events)
  {
    hide EventRight, InOrder, Distinct;
    assert WaveScript(env, r, wave, st, at, events, s, a);
  }

  lemma WaveOrdered<Store>(env: Env<Store>, r: Roster, waves: seq<seq<nat>>, w: nat, failed: FailedTasks,
                           skips: seq<Event>, more: seq<Event>)
    requires Planned(env, r.tasks, waves) && w < |waves| && Within(r.tasks, waves[w])
    requires skips == SkipEvents(env, r.tasks, waves[w], failed)
    requires Trail(more) == Flat(GroupsOf(r, env.maxWorkers, SkipPass(env, r.tasks, waves[w], failed).remaining))
    ensures var left := SkipPass(env, r.tasks, waves[w], failed).remaining;
            && |more| == |left| && Distinct(Trail(skips + more))
            && Parted(waves[w], Trail(skips + more), |skips|, |Pick(left, r.async, true)|)
  {
    var left := SkipPass(env, r.tasks, waves[w], failed).remaining;
    hide SkipPass, Flat, Planned, SkipEvents, Pick, GroupsOf, InOrder;
    FlatGroups(r, env.maxWorkers, left);
    PickLengths(left, r.async);
    SkipsInOrder(env, r.tasks, waves[w], failed);
    PartsInOrder(r, waves[w], Trail(skips), left);
    TrailAppend(skips, more);
    assert |Trail(more)| == |more|;
    PlannedIndependent(env, r.tasks, waves, w);
    hide WaveIndependent;
    OncePerTask(waves[w], Trail(skips + more));
  }

  // ----- a completed run has a script -----

  ghost predicate WavesEnd<Store>(env: Env<Store>, r: Roster, waves: seq<seq<nat>>, st: CrewState<Store>,
                                  end: CrewState<Store>) {
    AllWithin(r.tasks, waves) && RunWaves(env, r, waves, st) == Completed(end)
  }

  lemma LastWaveEnds<Store>(env: Env<Store>, r: Roster, waves: seq<seq<nat>>, st: CrewState<Store>, end: CrewState<Store>)
    returns (mid: CrewState<Store>)
    requires WavesEnd(env, r, waves, st, end) && waves != []
    ensures WavesEnd(env, r, waves[..|waves| - 1], st, mid) && Within(r.tasks, waves[|waves| - 1])
    ensures RunWave(env, r, waves[|waves| - 1], mid) == Completed(end)
  {
    hide RunWave;
    mid := RunWaves(env, r, waves[..|waves| - 1], st).state;
  }

  lemma NoWavesEnd<Store>(env: Env<Store>, r: Roster, st: CrewState<Store>, end: CrewState<Store>)
    requires WavesEnd(env, r, [], st, end)
    ensures end == st
  {
  }

  lemma {:induction false} FirstWaves<Store>(env: Env<Store>, r: Roster, waves: seq<seq<nat>>, n: nat,
                                             st: CrewState<Store>, end: CrewState<Store>)
    returns (events: seq<Event>)
    requires RosterOk(r) && Planned(env, r.tasks, waves) && n <= |waves| && WavesEnd(env, r, waves[..n], st, end)
    ensures EventsWithin(r.tasks, events) && end == Play(env, r.tasks, st, events) && RunScript(env, r, waves[..n], st, events)
  {
    hide WavesEnd, Planned, Play, ScriptedWave, RunWave;
    if n == 0 {
      NoWavesEnd(env, r, st, end);
      events := [];
      EmptyPlay(env, r.tasks, st);
    } else {
      assert waves[..n][..n - 1] == waves[..n - 1];
      var mid := LastWaveEnds(env, r, waves[..n], st, end);
      var before := FirstWaves(env, r, waves, n - 1, st, mid);
      var more := WaveScripted(env, r, waves, n - 1, mid, end, |before|);
      PlayAppend(env, r.tasks, st, before, more);
      events := before + more;
      assert events[..|before|] == before && events[|before|..] == more;
      assert LastWave(env, r, waves[..n], st, events, |before|);
    }
  }

  lemma EmptyPlay<Store>(env: Env<Store>, tasks: seq<TaskRef>, st: CrewState<Store>)
    ensures Play(env, tasks, st, []) == st
  {
  }

  /** A run over a plan that completes is one script played, event after event. */
  lemma RunScripted<Store>(env: Env<Store>, r: Roster, waves: seq<seq<nat>>, st: CrewState<Store>, end: CrewState<Store>)
    returns (events: seq<Event>)
    requires RosterOk(r) && Planned(env, r.tasks, waves) && AllWithin(r.tasks, waves)
    requires RunWaves(env, r, waves, st) == Completed(end)
    ensures EventsWithin(r.tasks, events) && end == Play(env, r.tasks, st, events) && RunScript(env, r, waves, st, events)
  {
    assert waves[..|waves|] == waves;
    assert WavesEnd(env, r, waves, st, end);
    hide WavesEnd, Planned, Play, RunScript, RunWaves;
    events := FirstWaves(env, r, waves, |waves|, st, end);
  }
}
