/** What the script of a completed run determines (crew.go: runAsyncWaves): the order in which tasks run and are
  * reported, the final text, and the outputs each task was told.
  */
module RunOrder {
  import opened Common
  import opened Digraph
  import opened Kahn
  import opened Schedule
  import opened Facts
  import opened TaskGroup
  import opened AsyncCrew
  import opened FailureClosure
  import opened Transcript

  // ----- the order of events -----

  /** Task i goes before task j of the same wave: Async tasks before the others, each kind in the wave's order. */
  ghost predicate GoesFirst(r: Roster, wave: seq<nat>, i: nat, j: nat) {
    i in wave && j in wave && i < |r.async| && j < |r.async| &&
    ((r.async[i] && !r.async[j]) || (r.async[i] == r.async[j] && Precede(wave, i, j)))
  }

  lemma PrecedeOnce(s: seq<nat>, i: nat, j: nat)
    requires Distinct(s) && Precede(s, i, j)
    ensures i != j && !Precede(s, j, i)
  {
  }

  /** In a wave's events, the tasks that run stand in that order. */
  lemma WaveGoes<Store>(env: Env<Store>, r: Roster, wave: seq<nat>, st: CrewState<Store>, at: nat, events: seq<Event>,
                        p: nat, q: nat)
    requires ScriptedWave(env, r, wave, st, at, events) && Distinct(wave) && p < |events| && q < |events|
    requires !events[p].Skipped? && !events[q].Skipped? && GoesFirst(r, wave, events[p].i, events[q].i)
    ensures p < q
  {
    var s: nat, a: nat :| WaveScript(env, r, wave, st, at, events, s, a);
    assert EventRight(env, r, st, at, events, s, a, p) && EventRight(env, r, st, at, events, s, a, q);
    RanPlaces(env, r, st, at, events, s, a, p);
    RanPlaces(env, r, st, at, events, s, a, q);
    hide EventRight, Precede, InOrder, Distinct;
    var i, j := events[p].i, events[q].i;
    if r.async[i] == r.async[j] {
      PrecedeOnce(wave, i, j);
      if q < p {
        PartPrecede(wave, Trail(events), s, a, q, p);
      }
    }
  }

  /** Two tasks of the same part of a wave's events stand in the wave's order. */
  lemma PartPrecede(wave: seq<nat>, all: seq<nat>, s: nat, a: nat, q: nat, p: nat)
    requires s + a <= |all| && InOrder(wave, all[s..s + a]) && InOrder(wave, all[s + a..])
    requires s <= q < p < |all| && (q < s + a <==> p < s + a)
    ensures Precede(wave, all[q], all[p])
  {
    if p < s + a {
      assert all[s..s + a][q - s] == all[q] && all[s..s + a][p - s] == all[p];
    } else {
      assert all[s + a..][q - (s + a)] == all[q] && all[s + a..][p - (s + a)] == all[p];
    }
  }

  lemma RanPlaces<Store>(env: Env<Store>, r: Roster, st: CrewState<Store>, at: nat, events: seq<Event>, s: nat, a: nat,
                         k: nat)
    requires EventsWithin(r.tasks, events) && k < |events| && EventRight(env, r, st, at, events, s, a, k)
    requires !events[k].Skipped?
    ensures s <= k && (k < s + a <==> events[k].i < |r.async| && r.async[events[k].i])
  {
    hide Play, Sees;
  }

  /** Of two tasks of the plan, i goes first: an earlier wave, or before j in its wave. */
  ghost predicate Goes(r: Roster, waves: seq<seq<nat>>, i: nat, j: nat, v: nat, w: nat) {
    v <= w < |waves| && i in waves[v] && j in waves[w] && (v < w || GoesFirst(r, waves[w], i, j))
  }

  ghost predicate EventsGo(r: Roster, waves: seq<seq<nat>>, events: seq<Event>) {
    forall p: nat, q: nat, v: nat, w: nat {:trigger Goes(r, waves, events[p].i, events[q].i, v, w)} ::
      p < |events| && q < |events| && !events[p].Skipped? && !events[q].Skipped? && Goes(r, waves, events[p].i, events[q].i, v, w) ==> p < q
  }

  /** The first n waves' tasks, each once, in that order. */
  ghost predicate Ordered(r: Roster, waves: seq<seq<nat>>, n: nat, events: seq<Event>) {
    && n <= |waves| && Distinct(Trail(events))
    && (forall i: nat {:trigger i in Trail(events)} :: i in Trail(events) <==> InFirst(waves, n, i))
    && EventsGo(r, waves, events)
  }

  ghost predicate Segment<Store>(env: Env<Store>, r: Roster, waves: seq<seq<nat>>, w: nat, st: CrewState<Store>,
                                 events: seq<Event>, n: nat) {
    && w < |waves| && n <= |events| && EventsWithin(r.tasks, events[..n])
    && ScriptedWave(env, r, waves[w], Play(env, r.tasks, st, events[..n]), n, events[n..])
  }

  lemma WaveIndexes<Store>(env: Env<Store>, r: Roster, wave: seq<nat>, st: CrewState<Store>, at: nat, events: seq<Event>)
    requires ScriptedWave(env, r, wave, st, at, events)
    ensures EventsWithin(r.tasks, events) && Distinct(Trail(events)) && forall i: nat :: i in Trail(events) <==> i in wave
  {
    hide EventRight, InOrder;
  }

  lemma InFirstNext(waves: seq<seq<nat>>, n: nat, i: nat)
    requires n < |waves|
    ensures InFirst(waves, n + 1, i) <==> InFirst(waves, n, i) || i in waves[n]
  {
  }

  lemma WaveOf<Store>(env: Env<Store>, r: Roster, waves: seq<seq<nat>>, i: nat, v: nat, w: nat)
    requires Planned(env, r.tasks, waves) && v < |waves| && w < |waves| && i in waves[v] && i in waves[w]
    ensures v == w
  {
    OneWaveOnly(env, r.tasks, waves, v, i);
    OneWaveOnly(env, r.tasks, waves, w, i);
    hide Planned;
  }

  lemma NextWaveOrdered<Store>(env: Env<Store>, r: Roster, waves: seq<seq<nat>>, n: nat, st: CrewState<Store>,
                               before: seq<Event>, mid: CrewState<Store>, more: seq<Event>)
    requires Planned(env, r.tasks, waves) && n < |waves| && Distinct(waves[n])
    requires Ordered(r, waves, n, before) && ScriptedWave(env, r, waves[n], mid, |before|, more)
    ensures Ordered(r, waves, n + 1, before + more)
  {
    hide ScriptedWave, Planned, InFirst;
    WaveIndexes(env, r, waves[n], mid, |before|, more);
    TrailAppend(before, more);
    var all := Trail(before + more);
    forall i: nat ensures i in all <==> InFirst(waves, n + 1, i) {
      InFirstNext(waves, n, i);
    }
    forall i: nat | i in Trail(before) && i in Trail(more) ensures false {
      Earlier(env, r, waves, n, i);
    }
    forall a, b | 0 <= a < b < |all| ensures all[a] != all[b] {
      if a < |before| <= b {
        assert all[a] == Trail(before)[a] && all[b] == Trail(more)[b - |before|];
        assert all[a] in Trail(before) && all[b] in Trail(more);
      }
    }
    NextWaveGo(env, r, waves, n, before, mid, more);
  }

  lemma Earlier<Store>(env: Env<Store>, r: Roster, waves: seq<seq<nat>>, n: nat, i: nat)
    requires Planned(env, r.tasks, waves) && n < |waves| && InFirst(waves, n, i)
    ensures i !in waves[n]
  {
    var v :| 0 <= v < n && v < |waves| && i in waves[v];
    if i in waves[n] {
      WaveOf(env, r, waves, i, v, n);
    }
  }

  lemma NextWaveGo<Store>(env: Env<Store>, r: Roster, waves: seq<seq<nat>>, n: nat, before: seq<Event>,
                          mid: CrewState<Store>, more: seq<Event>)
    requires Planned(env, r.tasks, waves) && n < |waves| && Distinct(waves[n])
    requires Ordered(r, waves, n, before) && ScriptedWave(env, r, waves[n], mid, |before|, more)
    ensures EventsGo(r, waves, before + more)
  {
    hide ScriptedWave, Planned, InFirst;
    var all := before + more;
    WaveIndexes(env, r, waves[n], mid, |before|, more);
    forall p: nat, q: nat, v: nat, w: nat
      | p < |all| && q < |all| && !all[p].Skipped? && !all[q].Skipped? && Goes(r, waves, all[p].i, all[q].i, v, w)
      ensures p < q {
      if p < |before| && q < |before| {
        assert all[p] == before[p] && all[q] == before[q];
      } else if p >= |before| {
        assert Trail(more)[p - |before|] == all[p].i && all[p].i in Trail(more);
        WaveOf(env, r, waves, all[p].i, v, n);
        if q < |before| {
          assert Trail(before)[q] == all[q].i && all[q].i in Trail(before);
          Earlier2(env, r, waves, n, all[q].i, w);
        } else {
          assert Trail(more)[q - |before|] == all[q].i && all[q].i in Trail(more);
          WaveOf(env, r, waves, all[q].i, w, n);
          WaveGoes(env, r, waves[n], mid, |before|, more, p - |before|, q - |before|);
        }
      }
    }
  }

  lemma Earlier2<Store>(env: Env<Store>, r: Roster, waves: seq<seq<nat>>, n: nat, i: nat, w: nat)
    requires Planned(env, r.tasks, waves) && n <= |waves| && InFirst(waves, n, i) && w < |waves| && i in waves[w]
    ensures w < n
  {
    var v :| 0 <= v < n && v < |waves| && i in waves[v];
    WaveOf(env, r, waves, i, v, w);
  }

  lemma {:induction false} ScriptOrdered<Store>(env: Env<Store>, r: Roster, waves: seq<seq<nat>>, n: nat,
                                                st: CrewState<Store>, events: seq<Event>)
    requires Planned(env, r.tasks, waves) && n <= |waves|
    requires EventsWithin(r.tasks, events) && RunScript(env, r, waves[..n], st, events)
    ensures Ordered(r, waves, n, events)
  {
    hide ScriptedWave, Planned, Play, Ordered;
    if n == 0 {
      NothingOrdered(r, waves);
    } else {
      var m: nat :| m <= |events| && LastWave(env, r, waves[..n], st, events, m);
      assert waves[..n][..n - 1] == waves[..n - 1];
      ScriptOrdered(env, r, waves, n - 1, st, events[..m]);
      PlannedIndependent(env, r.tasks, waves, n - 1);
      hide WaveIndependent, Distinct;
      NextWaveOrdered(env, r, waves, n - 1, st, events[..m], Play(env, r.tasks, st, events[..m]), events[m..]);
      assert events[..m] + events[m..] == events;
    }
  }

  lemma NothingOrdered(r: Roster, waves: seq<seq<nat>>)
    ensures Ordered(r, waves, 0, [])
  {
  }

  // ----- what was run and reported, in order -----

  /** The event runs its task; or, asked for reports, runs it to a successful end. */
  predicate Keeps(e: Event, reports: bool) {
    !e.Skipped? && (reports ==> e.Ran? && e.x.end.Succeeds?)
  }

  function Kept(events: seq<Event>, reports: bool): seq<nat> {
    if events == [] then []
    else
      var before := Kept(events[..|events| - 1], reports);
      if Keeps(events[|events| - 1], reports) then before + [events[|events| - 1].i] else before
  }

  lemma {:induction false} PlayKeeps<Store>(env: Env<Store>, tasks: seq<TaskRef>, st: CrewState<Store>, events: seq<Event>)
    requires EventsWithin(tasks, events)
    ensures var end := Play(env, tasks, st, events);
            end.ran == st.ran + Kept(events, false) && Reported(end.out) == Reported(st.out) + Kept(events, true)
  {
    if events != [] {
      PlayKeeps(env, tasks, st, events[..|events| - 1]);
      OneKept(env, tasks, Play(env, tasks, st, events[..|events| - 1]), events[|events| - 1]);
      hide PlayOne, Keeps, Reported;
    }
  }

  lemma OneKept<Store>(env: Env<Store>, tasks: seq<TaskRef>, st: CrewState<Store>, e: Event)
    requires e.i < |tasks|
    ensures var end := PlayOne(env, tasks, st, e);
            && end.ran == (if Keeps(e, false) then st.ran + [e.i] else st.ran)
            && Reported(end.out) == if Keeps(e, true) then Reported(st.out) + [e.i] else Reported(st.out)
  {
    OneOut(env, tasks, st, e);
    OneRan(env, tasks, st, e);
    hide PlayOne;
  }

  lemma OneRan<Store>(env: Env<Store>, tasks: seq<TaskRef>, st: CrewState<Store>, e: Event)
    requires e.i < |tasks|
    ensures PlayOne(env, tasks, st, e).ran == if e.Skipped? then st.ran else st.ran + [e.i]
  {
    hide Dedup;
  }

  lemma OneOut<Store>(env: Env<Store>, tasks: seq<TaskRef>, st: CrewState<Store>, e: Event)
    requires e.i < |tasks|
    ensures var out := PlayOne(env, tasks, st, e).out;
            if e.Ran? && e.x.end.Succeeds?
            then |out.tasksOutput| == |st.out.tasksOutput| + 1 && out.tasksOutput[..|st.out.tasksOutput|] == st.out.tasksOutput
                 && out.tasksOutput[|st.out.tasksOutput|].index == e.i
            else out == st.out
  {
    hide Dedup;
  }

  lemma {:induction false} KeptPlace(events: seq<Event>, reports: bool, i: nat) returns (p: nat)
    requires i in Kept(events, reports)
    ensures p < |events| && events[p].i == i && Keeps(events[p], reports)
  {
    var n := |events| - 1;
    if Keeps(events[n], reports) && events[n].i == i {
      p := n;
    } else {
      p := KeptPlace(events[..n], reports, i);
    }
  }

  lemma {:induction false} KeptMember(events: seq<Event>, reports: bool, p: nat)
    requires p < |events| && Keeps(events[p], reports)
    ensures events[p].i in Kept(events, reports)
  {
    var n := |events| - 1;
    if p < n {
      KeptMember(events[..n], reports, p);
    }
  }

  lemma {:induction false} KeptPrecede(events: seq<Event>, reports: bool, p: nat, q: nat)
    requires p < q < |events| && Keeps(events[p], reports) && Keeps(events[q], reports)
    ensures Precede(Kept(events, reports), events[p].i, events[q].i)
  {
    hide Precede, Keeps;
    var n := |events| - 1;
    var front := events[..n];
    if q < n {
      KeptPrecede(front, reports, p, q);
      PrecedeMore(Kept(front, reports), if Keeps(events[n], reports) then [events[n].i] else [], events[p].i, events[q].i);
      assert Kept(front, reports) + [] == Kept(front, reports);
    } else {
      KeptMember(front, reports, p);
      PrecedeLast(Kept(front, reports), events[p].i, events[n].i);
    }
  }

  /** Tasks run, and are reported, wave by wave, in a wave the Async ones first, and each kind in the wave's order. */
  lemma OrderKept<Store>(env: Env<Store>, r: Roster, waves: seq<seq<nat>>, st: CrewState<Store>, end: CrewState<Store>,
                         i: nat, j: nat, v: nat, w: nat)
    requires RosterOk(r) && Planned(env, r.tasks, waves) && AllWithin(r.tasks, waves)
    requires RunWaves(env, r, waves, st) == Completed(end) && st.ran == [] && st.out == EMPTY_OUTPUT
    requires Goes(r, waves, i, j, v, w)
    ensures i in end.ran && j in end.ran ==> Precede(end.ran, i, j)
    ensures i in Reported(end.out) && j in Reported(end.out) ==> Precede(Reported(end.out), i, j)
  {
    hide Planned, RunWaves, Play, RunScript, Precede, Goes, GoesFirst;
    var events := RunScripted(env, r, waves, st, end);
    assert waves[..|waves|] == waves;
    ScriptOrdered(env, r, waves, |waves|, st, events);
    PlayKeeps(env, r.tasks, st, events);
    NothingReported();
    hide Reported;
    assert [] + Kept(events, false) == Kept(events, false) && [] + Kept(events, true) == Kept(events, true);
    if i in end.ran && j in end.ran {
      KeptInOrder(r, waves, events, false, i, j, v, w);
    }
    if i in Reported(end.out) && j in Reported(end.out) {
      KeptInOrder(r, waves, events, true, i, j, v, w);
    }
  }

  lemma NothingReported()
    ensures Reported(EMPTY_OUTPUT) == []
  {
  }

  lemma KeptInOrder(r: Roster, waves: seq<seq<nat>>, events: seq<Event>, reports: bool, i: nat, j: nat, v: nat, w: nat)
    requires EventsGo(r, waves, events) && Goes(r, waves, i, j, v, w)
    requires i in Kept(events, reports) && j in Kept(events, reports)
    ensures Precede(Kept(events, reports), i, j)
  {
    hide Goes, Precede, Kept;
    var p := KeptPlace(events, reports, i);
    var q := KeptPlace(events, reports, j);
    assert Goes(r, waves, events[p].i, events[q].i, v, w) && !events[p].Skipped? && !events[q].Skipped?;
    KeptPrecede(events, reports, p, q);
  }

  // ----- the output of the crew -----

  function AllWarnings(es: seq<TaskOutput>): seq<string> {
    if es == [] then [] else AllWarnings(es[..|es| - 1]) + es[|es| - 1].warnings
  }

  function AllFacts(es: seq<TaskOutput>): seq<Fact> {
    if es == [] then [] else AllFacts(es[..|es| - 1]) + es[|es| - 1].facts
  }

  /** The final text is the last report's output; the warnings are all reports'; the facts, too, the first of each hash. */
  ghost predicate AddsUp(out: CrewOutput) {
    var es := out.tasksOutput;
    && out.final == (if es == [] then "" else es[|es| - 1].output)
    && out.warnings == AllWarnings(es) && out.facts == Dedup([], AllFacts(es))
  }

  lemma {:induction false} PlayAddsUp<Store>(env: Env<Store>, tasks: seq<TaskRef>, st: CrewState<Store>, events: seq<Event>)
    requires EventsWithin(tasks, events) && AddsUp(st.out)
    ensures AddsUp(Play(env, tasks, st, events).out)
  {
    hide AddsUp;
    if events != [] {
      PlayAddsUp(env, tasks, st, events[..|events| - 1]);
      EventAddsUp(env, tasks, Play(env, tasks, st, events[..|events| - 1]), events[|events| - 1]);
      hide PlayOne;
    }
  }

  lemma EventAddsUp<Store>(env: Env<Store>, tasks: seq<TaskRef>, st: CrewState<Store>, e: Event)
    requires e.i < |tasks| && AddsUp(st.out)
    ensures AddsUp(PlayOne(env, tasks, st, e).out)
  {
    hide AddsUp, Dedup;
    EventOut(env, tasks, st, e);
    var out := PlayOne(env, tasks, st, e).out;
    hide PlayOne;
    if out != st.out {
      ReportAddsUp(st.out, out.tasksOutput[|out.tasksOutput| - 1]);
    }
    assert AddsUp(PlayOne(env, tasks, st, e).out);
  }

  /** The crew output with one more report. */
  function Reporting(out: CrewOutput, report: TaskOutput): CrewOutput {
    CrewOutput(report.output, out.tasksOutput + [report], Dedup(out.facts, report.facts), out.warnings + report.warnings)
  }

  lemma EventOut<Store>(env: Env<Store>, tasks: seq<TaskRef>, st: CrewState<Store>, e: Event)
    requires e.i < |tasks|
    ensures var out := PlayOne(env, tasks, st, e).out;
            out == st.out || (|out.tasksOutput| > 0 && out == Reporting(st.out, out.tasksOutput[|out.tasksOutput| - 1]))
  {
    hide Dedup;
  }

  lemma ReportAddsUp(out: CrewOutput, report: TaskOutput)
    requires AddsUp(out)
    ensures AddsUp(Reporting(out, report))
  {
    hide Dedup;
    DedupAppend([], AllFacts(out.tasksOutput), report.facts);
    assert (out.tasksOutput + [report])[..|out.tasksOutput|] == out.tasksOutput;
  }

  /** The crew output of a completed run adds up. */
  lemma OutputAddsUp<Store>(env: Env<Store>, r: Roster, waves: seq<seq<nat>>, st: CrewState<Store>, end: CrewState<Store>)
    requires RosterOk(r) && Planned(env, r.tasks, waves) && AllWithin(r.tasks, waves)
    requires RunWaves(env, r, waves, st) == Completed(end) && st.out == EMPTY_OUTPUT
    ensures AddsUp(end.out)
  {
    hide Planned, RunWaves, Play, RunScript;
    var events := RunScripted(env, r, waves, st, end);
    assert AddsUp(EMPTY_OUTPUT);
    hide AddsUp;
    PlayAddsUp(env, r.tasks, st, events);
  }

  // ----- what each task was told -----

  /** The k-th event saw the state after its first `seen` events, which come after all events of earlier waves. */
  ghost predicate Saw<Store>(env: Env<Store>, r: Roster, waves: seq<seq<nat>>, st: CrewState<Store>,
                             events: seq<Event>, k: nat)
    requires EventsWithin(r.tasks, events)
  {
    k < |events| &&
    var e := events[k];
    e.Ran? ==>
      && e.seen <= k
      && (var before := Play(env, r.tasks, st, events[..e.seen]);
          e.x == env.run(r.tasks[e.i], Sees(env, r.tasks[e.i], before.outputs, before.store)))
      && AfterEarlier(r, waves, events, e.i, e.seen)
  }

  ghost predicate AfterEarlier(r: Roster, waves: seq<seq<nat>>, events: seq<Event>, i: nat, seen: nat) {
    forall w: nat, m: nat :: w < |waves| && i in waves[w] && seen <= m < |events| ==> !InFirst(waves, w, events[m].i)
  }

  ghost predicate AllSaw<Store>(env: Env<Store>, r: Roster, waves: seq<seq<nat>>, st: CrewState<Store>,
                                events: seq<Event>)
    requires EventsWithin(r.tasks, events)
  {
    forall k: nat :: k < |events| ==> Saw(env, r, waves, st, events, k)
  }

  lemma WaveSaw<Store>(env: Env<Store>, r: Roster, wave: seq<nat>, st: CrewState<Store>, at: nat, events: seq<Event>,
                       k: nat)
    requires ScriptedWave(env, r, wave, st, at, events) && k < |events| && events[k].Ran?
    ensures EventsWithin(r.tasks, events)
    ensures var e := events[k];
            && at <= e.seen <= at + k
            && var before := Play(env, r.tasks, st, events[..e.seen - at]);
               e.x == env.run(r.tasks[e.i], Sees(env, r.tasks[e.i], before.outputs, before.store))
  {
    var s: nat, a: nat :| WaveScript(env, r, wave, st, at, events, s, a);
    assert EventRight(env, r, st, at, events, s, a, k);
    hide Play, Sees, ChunkStart, InOrder;
  }

  lemma SawLonger<Store>(env: Env<Store>, r: Roster, waves: seq<seq<nat>>, n: nat, st: CrewState<Store>,
                         before: seq<Event>, more: seq<Event>, k: nat)
    requires Planned(env, r.tasks, waves) && n < |waves| && EventsWithin(r.tasks, before) && EventsWithin(r.tasks, before + more)
    requires k < |before| && Saw(env, r, waves, st, before, k) && InFirst(waves, n, before[k].i)
    requires forall m: nat :: m < |more| ==> more[m].i in waves[n]
    ensures Saw(env, r, waves, st, before + more, k)
  {
    hide Play, Sees, Planned;
    var e := before[k];
    if e.Ran? {
      assert (before + more)[..e.seen] == before[..e.seen];
      forall w: nat, m: nat | w < |waves| && e.i in waves[w] && e.seen <= m < |before + more|
        ensures !InFirst(waves, w, (before + more)[m].i) {
        if m >= |before| {
          Earlier2(env, r, waves, n, e.i, w);
          NotEarlier(env, r, waves, n, w, more[m - |before|].i);
        }
      }
    }
  }

  lemma NotEarlier<Store>(env: Env<Store>, r: Roster, waves: seq<seq<nat>>, n: nat, w: nat, i: nat)
    requires Planned(env, r.tasks, waves) && w <= n < |waves| && i in waves[n]
    ensures !InFirst(waves, w, i)
  {
    hide Planned;
    if InFirst(waves, w, i) {
      var v :| 0 <= v < w && v < |waves| && i in waves[v];
      WaveOf(env, r, waves, i, v, n);
    }
  }

  lemma SawLast<Store>(env: Env<Store>, r: Roster, waves: seq<seq<nat>>, n: nat, st: CrewState<Store>,
                       before: seq<Event>, more: seq<Event>, k: nat)
    requires Planned(env, r.tasks, waves) && n < |waves| && EventsWithin(r.tasks, before)
    requires ScriptedWave(env, r, waves[n], Play(env, r.tasks, st, before), |before|, more) && k < |more|
    requires EventsWithin(r.tasks, before + more)
    ensures Saw(env, r, waves, st, before + more, |before| + k)
  {
    WaveIndexes(env, r, waves[n], Play(env, r.tasks, st, before), |before|, more);
    var all, e := before + more, more[k];
    assert all[|before| + k] == e;
    if e.Ran? {
      WaveSaw(env, r, waves[n], Play(env, r.tasks, st, before), |before|, more, k);
      hide ScriptedWave, Planned, Play, Sees;
      PlayAppend(env, r.tasks, st, before, more[..e.seen - |before|]);
      assert all[..e.seen] == before + more[..e.seen - |before|];
      assert Trail(more)[k] == e.i && e.i in Trail(more);
      forall w: nat, m: nat | w < |waves| && e.i in waves[w] && e.seen <= m < |all| ensures !InFirst(waves, w, all[m].i) {
        assert all[m] == more[m - |before|] && Trail(more)[m - |before|] == all[m].i && all[m].i in Trail(more);
        WaveOf(env, r, waves, e.i, w, n);
        NotEarlier(env, r, waves, n, w, all[m].i);
      }
    }
  }

  lemma {:induction false} ScriptSaw<Store>(env: Env<Store>, r: Roster, waves: seq<seq<nat>>, n: nat,
                                            st: CrewState<Store>, events: seq<Event>)
    requires Planned(env, r.tasks, waves) && n <= |waves|
    requires EventsWithin(r.tasks, events) && RunScript(env, r, waves[..n], st, events)
    ensures AllSaw(env, r, waves, st, events)
  {
    hide ScriptedWave, Planned, Play, Ordered, Saw, InFirst, AllSaw;
    if n == 0 {
      NothingSaw(env, r, waves, st);
    } else {
      var m := SplitScript(env, r, waves, n, st, events);
      ScriptSaw(env, r, waves, n - 1, st, events[..m]);
      ScriptOrdered(env, r, waves, n - 1, st, events[..m]);
      hide RunScript;
      NextWaveSaw(env, r, waves, n - 1, st, events[..m], events[m..]);
      assert events[..m] + events[m..] == events;
    }
  }

  lemma NothingSaw<Store>(env: Env<Store>, r: Roster, waves: seq<seq<nat>>, st: CrewState<Store>)
    ensures AllSaw(env, r, waves, st, [])
  {
  }

  lemma SplitScript<Store>(env: Env<Store>, r: Roster, waves: seq<seq<nat>>, n: nat, st: CrewState<Store>,
                           events: seq<Event>) returns (m: nat)
    requires 0 < n <= |waves| && EventsWithin(r.tasks, events) && RunScript(env, r, waves[..n], st, events)
    ensures m <= |events| && EventsWithin(r.tasks, events[..m]) && RunScript(env, r, waves[..n - 1], st, events[..m])
    ensures ScriptedWave(env, r, waves[n - 1], Play(env, r.tasks, st, events[..m]), m, events[m..])
  {
    hide ScriptedWave, Play;
    m :| m <= |events| && LastWave(env, r, waves[..n], st, events, m);
    assert waves[..n][..n - 1] == waves[..n - 1];
  }

  lemma NextWaveSaw<Store>(env: Env<Store>, r: Roster, waves: seq<seq<nat>>, n: nat, st: CrewState<Store>,
                           before: seq<Event>, more: seq<Event>)
    requires Planned(env, r.tasks, waves) && n < |waves| && EventsWithin(r.tasks, before)
    requires AllSaw(env, r, waves, st, before) && Ordered(r, waves, n, before)
    requires ScriptedWave(env, r, waves[n], Play(env, r.tasks, st, before), |before|, more)
    ensures EventsWithin(r.tasks, before + more) && AllSaw(env, r, waves, st, before + more)
  {
    hide ScriptedWave, Planned, Play, Saw, InFirst, EventsGo, Distinct;
    WaveMembers(env, r, waves[n], Play(env, r.tasks, st, before), |before|, more);
    forall k: nat | k < |before + more| ensures Saw(env, r, waves, st, before + more, k) {
      if k < |before| {
        assert Trail(before)[k] == before[k].i && before[k].i in Trail(before);
        SawLonger(env, r, waves, n, st, before, more, k);
      } else {
        SawLast(env, r, waves, n, st, before, more, k - |before|);
      }
    }
  }

  lemma WaveMembers<Store>(env: Env<Store>, r: Roster, wave: seq<nat>, st: CrewState<Store>, at: nat, events: seq<Event>)
    requires ScriptedWave(env, r, wave, st, at, events)
    ensures EventsWithin(r.tasks, events) && forall m: nat :: m < |events| ==> events[m].i in wave
  {
    WaveIndexes(env, r, wave, st, at, events);
    hide ScriptedWave;
    forall m: nat | m < |events| ensures events[m].i in wave {
      assert Trail(events)[m] == events[m].i && events[m].i in Trail(events);
    }
  }

  // ----- and it was final -----

  lemma {:induction false} OutputsStay<Store>(env: Env<Store>, tasks: seq<TaskRef>, st: CrewState<Store>, events: seq<Event>,
                                              seen: nat, d: TaskRef)
    requires EventsWithin(tasks, events) && seen <= |events|
    requires forall m: nat :: seen <= m < |events| ==> tasks[events[m].i] != d
    ensures Get(Play(env, tasks, st, events).outputs, d) == Get(Play(env, tasks, st, events[..seen]).outputs, d)
  {
    hide Play, PlayOne;
    if seen == |events| {
      assert events[..seen] == events;
    } else {
      var n := |events| - 1;
      assert events[..n][..seen] == events[..seen] && events[..n] + [events[n]] == events;
      OutputsStay(env, tasks, st, events[..n], seen, d);
      OtherOutput(env, tasks, Play(env, tasks, st, events[..n]), events[n], d);
      PlayStep(env, tasks, st, events[..n], events[n]);
    }
  }

  lemma OtherOutput<Store>(env: Env<Store>, tasks: seq<TaskRef>, st: CrewState<Store>, e: Event, d: TaskRef)
    requires e.i < |tasks| && tasks[e.i] != d
    ensures Get(PlayOne(env, tasks, st, e).outputs, d) == Get(st.outputs, d)
  {
    hide Dedup;
  }

  lemma SeesSame<Store>(env: Env<Store>, t: TaskRef, a: Outputs, b: Outputs, store: Store)
    requires forall d :: d in env.context(t) ==> Get(a, d) == Get(b, d)
    ensures Sees(env, t, a, store) == Sees(env, t, b, store)
  {
    var deps := env.context(t);
    assert forall k :: 0 <= k < |deps| ==> deps[k] in deps;
    assert seq(|deps|, k requires 0 <= k < |deps| => if deps[k] in a then a[deps[k]] else "") ==
           seq(|deps|, k requires 0 <= k < |deps| => if deps[k] in b then b[deps[k]] else "");
  }

  /** A dependency in the list is in an earlier wave. */
  lemma DependencyWave<Store>(env: Env<Store>, r: Roster, waves: seq<seq<nat>>, i: nat, j: nat, w: nat)
    requires Planned(env, r.tasks, waves) && w < |waves| && i in waves[w] && j < |r.tasks| && i < |r.tasks|
    requires r.tasks[j] in env.context(r.tasks[i])
    ensures InFirst(waves, w, j)
  {
    var g := DepGraph(r.tasks, ContextsOf(env, r.tasks));
    TaskPlaced(env, r.tasks, waves, j);
    var v :| 0 <= v < |waves| && j in waves[v];
    hide LongestWalkTo;
    assert LongestWalkTo(g, i, w) && LongestWalkTo(g, j, v);
    PlannedEdge(env, r.tasks, i, j);
    WalkContinues(g, v, i, j, w);
  }

  /** Each task that ran in a completed run was told the outputs its dependencies have at the end of the run, with
      the memory as it stood after an earlier part of the run. */
  ghost predicate ToldFinal<Store>(env: Env<Store>, tasks: seq<TaskRef>, st: CrewState<Store>, end: CrewState<Store>,
                                   events: seq<Event>)
    requires EventsWithin(tasks, events)
  {
    forall k: nat :: k < |events| && events[k].Ran? ==>
      && events[k].seen <= k
      && var t, store := tasks[events[k].i], Play(env, tasks, st, events[..events[k].seen]).store;
         events[k].x == env.run(t, Sees(env, t, end.outputs, store))
  }

  lemma SawFinal<Store>(env: Env<Store>, r: Roster, waves: seq<seq<nat>>, st: CrewState<Store>, events: seq<Event>, k: nat)
    requires Planned(env, r.tasks, waves) && EventsWithin(r.tasks, events) && Saw(env, r, waves, st, events, k) && events[k].Ran?
    ensures events[k].seen <= k
    ensures var t := r.tasks[events[k].i];
            var before := Play(env, r.tasks, st, events[..events[k].seen]);
            Sees(env, t, before.outputs, before.store) == Sees(env, t, Play(env, r.tasks, st, events).outputs, before.store)
  {
    hide Play, Sees;
    var e := events[k];
    var t := r.tasks[e.i];
    var before, end := Play(env, r.tasks, st, events[..e.seen]), Play(env, r.tasks, st, events);
    TaskPlaced(env, r.tasks, waves, e.i);
    var w: nat :| w < |waves| && e.i in waves[w];
    assert AfterEarlier(r, waves, events, e.i, e.seen);
    forall d | d in env.context(t) ensures Get(before.outputs, d) == Get(end.outputs, d) {
      forall m: nat | e.seen <= m < |events| ensures r.tasks[events[m].i] != d {
        if r.tasks[events[m].i] == d {
          DependencyWave(env, r, waves, e.i, events[m].i, w);
        }
      }
      OutputsStay(env, r.tasks, st, events, e.seen, d);
    }
    SeesSame(env, t, before.outputs, end.outputs, before.store);
  }

  /** A completed run, told: it is its events played, in the plan's order, and what every task was told was final. */
  ghost predicate Told<Store>(env: Env<Store>, r: Roster, waves: seq<seq<nat>>, st: CrewState<Store>, end: CrewState<Store>) {
    exists events: seq<Event> :: TellsRun(env, r, waves, st, end, events)
  }

  ghost predicate TellsRun<Store>(env: Env<Store>, r: Roster, waves: seq<seq<nat>>, st: CrewState<Store>,
                                  end: CrewState<Store>, events: seq<Event>) {
    && EventsWithin(r.tasks, events) && end == Play(env, r.tasks, st, events)
    && RunScript(env, r, waves, st, events) && ToldFinal(env, r.tasks, st, end, events)
  }

  lemma RunTold<Store>(env: Env<Store>, r: Roster, waves: seq<seq<nat>>, st: CrewState<Store>, end: CrewState<Store>)
    requires RosterOk(r) && Planned(env, r.tasks, waves) && AllWithin(r.tasks, waves)
    requires RunWaves(env, r, waves, st) == Completed(end)
    ensures Told(env, r, waves, st, end)
  {
    hide Planned, RunWaves, Play, RunScript, Sees, AfterEarlier;
    var events := RunScripted(env, r, waves, st, end);
    assert waves[..|waves|] == waves;
    ScriptSaw(env, r, waves, |waves|, st, events);
    forall k: nat | k < |events| && events[k].Ran?
      ensures events[k].seen <= k
      ensures var t, store := r.tasks[events[k].i], Play(env, r.tasks, st, events[..events[k].seen]).store;
              events[k].x == env.run(t, Sees(env, t, end.outputs, store)) {
      assert Saw(env, r, waves, st, events, k);
      SawFinal(env, r, waves, st, events, k);
    }
    assert TellsRun(env, r, waves, st, end, events);
  }
}
