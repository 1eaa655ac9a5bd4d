/** A kickoff on the asynchronous path (crew.go: Kickoff, runSequentialWithPlan): plan, then run the waves. */
module Kickoff {
  import opened Common
  import opened Digraph
  import opened Kahn
  import opened Schedule
  import opened TaskGroup
  import opened AsyncCrew
  import opened FailureClosure
  import opened RunOrder

  datatype KickoffError = NoTasks | BadPlan(why: PlanResult) | GroupFailed(err: GroupError)

  lemma PlanIsPlanned<Store>(env: Env<Store>, tasks: seq<TaskRef>, waves: seq<seq<nat>>)
    requires Distinct(tasks) && CorrectPlan(DepGraph(tasks, ContextsOf(env, tasks)), waves)
    ensures Planned(env, tasks, waves) && AllWithin(tasks, waves)
  {
    hide LongestWalkTo;
    forall w, k | 0 <= w < |waves| && 0 <= k < |waves[w]| ensures waves[w][k] < |tasks| {
      assert waves[w][k] in waves[w];
    }
  }

  /** What the run over the plan should end in. */
  ghost predicate EndsAsPlanned<Store>(env: Env<Store>, r: Roster, waves: seq<seq<nat>>, st: CrewState<Store>,
                                       end: CrewState<Store>, err: Option<GroupError>) {
    AllWithin(r.tasks, waves) && Matches(env, r.tasks, RunWaves(env, r, waves, st), end, err)
  }

  /** Whatever the store, the interleaving and the answers of the oracles, unless the caller cancels: an
      unplannable crew is refused with the planner's error and nothing runs; otherwise the run ends as the
      sequential reference over the plan, and without fail-fast it completes and is closed. */
  method KickoffAsync<Store(!new)>(crew: Crew<Store>, r: Roster, schedulers: nat -> nat -> State<Store> -> Action)
    returns (out: CrewOutput, err: Option<KickoffError>, waves: seq<seq<nat>>, ghost outside: bool)
    requires RosterOk(r) && SchedulesRun(crew.env, schedulers)
    modifies crew
    ensures err.Some? && err != Some(NoTasks) ==> !crew.buffering && crew.memBuf == []
    ensures err == Some(NoTasks) <==> r.tasks == []
    ensures err.Some? && err.value.GroupFailed? ==> crew.env.failFast
    ensures r.tasks != [] ==>
              (err.Some? && err.value.BadPlan? <==>
                 !(Distinct(r.tasks) && Acyclic(DepGraph(r.tasks, ContextsOf(crew.env, r.tasks)))))
    ensures err.Some? && !err.value.GroupFailed? ==>
              crew.store == old(crew.store) && crew.outputs == old(crew.outputs) && crew.warnings == old(crew.warnings)
    ensures err.None? || err.value.GroupFailed? ==>
              && Planned(crew.env, r.tasks, waves)
              && (!outside ==>
                    EndsAsPlanned(crew.env, r, waves,
                                  CrewState(old(crew.outputs), old(crew.warnings), old(crew.store), map[], EMPTY_OUTPUT, [], {}),
                                  crew.View(out), if err.None? then None else Some(err.value.err)))
    ensures err.None? && !outside ==>
              && AddsUp(out)
              && Told(crew.env, r, waves,
                      CrewState(old(crew.outputs), old(crew.warnings), old(crew.store), map[], EMPTY_OUTPUT, [], {}),
                      crew.View(out))
    ensures (err.None? || err.value.GroupFailed?) && !outside && !crew.env.failFast ==>
              err.None? && ClosedRun(crew.env, r.tasks, DepGraph(r.tasks, ContextsOf(crew.env, r.tasks)), crew.View(out))
  {
    hide Matches, RunWaves, ClosedRun, Told, AddsUp, Planned, Schedules, SchedulesRun, CorrectPlan, Acyclic, Distinct;
    out, waves, outside := EMPTY_OUTPUT, [], false;
    if |r.tasks| == 0 {
      return out, Some(NoTasks), waves, outside;
    }
    crew.failedTasks := map[];
    crew.ran, crew.broke := [], {};
    crew.DiscardMemoryBuffer();
    var plan := PlanWaves(r.tasks, ContextsOf(crew.env, r.tasks));
    if !plan.Plan? {
      return out, Some(BadPlan(plan)), waves, outside;
    }
    waves := plan.waves;
    PlanIsPlanned(crew.env, r.tasks, waves);
    ghost var st := crew.View(EMPTY_OUTPUT);
    var groupErr;
    out, groupErr, outside := crew.RunAsyncWaves(r, waves, schedulers);
    if !outside && !crew.env.failFast {
      Closure(crew.env, r, waves, st);
      CompletedMatches(crew.env, r.tasks, RunWaves(crew.env, r, waves, st), crew.View(out), groupErr);
    }
    if groupErr.Some? {
      crew.DiscardMemoryBuffer();
      return out, Some(GroupFailed(groupErr.value)), waves, outside;
    }
    if !outside {
      MatchesCompleted(crew.env, r.tasks, RunWaves(crew.env, r, waves, st), crew.View(out));
      RunTold(crew.env, r, waves, st, crew.View(out));
      OutputAddsUp(crew.env, r, waves, st, crew.View(out));
    }
    err := None;
  }

  lemma CompletedMatches<Store>(env: Env<Store>, tasks: seq<TaskRef>, want: RunEnd<Store>, st: CrewState<Store>,
                                err: Option<GroupError>)
    requires want.Completed? && Matches(env, tasks, want, st, err)
    ensures err.None? && st == want.state
  {
  }

  lemma MatchesCompleted<Store>(env: Env<Store>, tasks: seq<TaskRef>, want: RunEnd<Store>, st: CrewState<Store>)
    requires Matches(env, tasks, want, st, None)
    ensures want == Completed(st)
  {
  }
}
