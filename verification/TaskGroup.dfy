/** One barrier-bounded group of concurrent tasks (crew.go: runTaskGroup, execute) as a state machine.
  *
  * Every worker goroutine moves through phases; any enabled worker may take the next step, so a run of the
  * machine is an interleaving. The LLM, its tools and the store are the oracles of `Env`.
  */
module TaskGroup {
  import opened Common
  import opened Schedule
  import opened Facts

  datatype TaskError =
    | NoAgent
    | Canceled
    | Raised(message: string)
    | DependencyFailed(dep: TaskRef, cause: TaskError)

  /** How executing a task ends: in the executor, writing the output, at the task guardrail, or well. */
  datatype Ending =
    | Interrupted
    | Fails(err: string)
    | WriteFails(output: string, err: string)
    | Blocked(output: string, err: string)
    | Succeeds(output: string, facts: seq<Fact>)

  datatype Execution = Execution(warnings: seq<string>, end: Ending)

  /** A Put (after any embedding): the new store and the warnings it leaves on the task. */
  datatype Put<Store> = Put(store: Store, warnings: seq<string>)

  datatype Env<!Store> = Env(
    context: TaskRef -> seq<TaskRef>,
    hasAgent: TaskRef -> bool,
    text: (TaskRef, seq<string>) -> string,
    recall: Store -> string,
    run: (TaskRef, string) -> Execution,
    put: (Store, TaskRef, string) -> Put<Store>,
    memory: bool,
    injectWhenEmpty: bool,
    autoSave: bool,
    failFast: bool,
    maxWorkers: nat)

  // ----- the task table: outputs and warnings, written in place -----

  type Outputs = map<TaskRef, string>
  type Warnings = map<TaskRef, seq<string>>

  function OutputOf(outputs: Outputs, t: TaskRef): string {
    if t in outputs then outputs[t] else ""
  }

  function WarningsOf(warnings: Warnings, t: TaskRef): seq<string> {
    if t in warnings then warnings[t] else []
  }

  function Warn(warnings: Warnings, t: TaskRef, more: seq<string>): Warnings {
    warnings[t := WarningsOf(warnings, t) + more]
  }

  function Get<V>(m: map<TaskRef, V>, t: TaskRef): Option<V> {
    if t in m then Some(m[t]) else None
  }

  // ----- what a task sees -----

  function OutputsOf(outputs: Outputs, tasks: seq<TaskRef>): seq<string> {
    seq(|tasks|, i requires 0 <= i < |tasks| => OutputOf(outputs, tasks[i]))
  }

  function ContextText<Store>(env: Env<Store>, outputs: Outputs, t: TaskRef): string {
    env.text(t, OutputsOf(outputs, env.context(t)))
  }

  function Prompt<Store>(env: Env<Store>, context: string, store: Store): string {
    if !env.memory || (env.injectWhenEmpty && context != "") then context
    else
      var mem := env.recall(store);
      if mem == "" then context else if context == "" then mem else context + "\n\n" + mem
  }

  /** The execution of t against a snapshot, with nobody else running. */
  function Alone<Store>(env: Env<Store>, outputs: Outputs, store: Store, t: TaskRef): Execution {
    env.run(t, Prompt(env, ContextText(env, outputs, t), store))
  }

  // ----- what an execution leaves behind -----

  datatype TaskResult = Empty | Failed(err: TaskError) | Output(output: string, facts: seq<Fact>)

  function EndError(end: Ending): Option<TaskError> {
    match end
    case Interrupted => Some(Canceled)
    case Fails(err) => Some(Raised(err))
    case WriteFails(_, err) => Some(Raised(err))
    case Blocked(_, err) => Some(Raised(err))
    case Succeeds(_, _) => None
  }

  function EndOutput(end: Ending): Option<string> {
    match end
    case Interrupted => None
    case Fails(_) => None
    case WriteFails(output, _) => Some(output)
    case Blocked(output, _) => Some(output)
    case Succeeds(output, _) => Some(output)
  }

  /** AutoSave comes before the task guardrail, so a blocked output is saved too. */
  predicate Saves(end: Ending) {
    end.Blocked? || end.Succeeds?
  }

  function EndResult(end: Ending): TaskResult {
    if end.Succeeds? then Output(end.output, end.facts) else Failed(EndError(end).value)
  }

  // ----- the machine -----

  datatype Phase =
    | Unspawned
    | Waiting
    | Starting
    | Recalling(context: string)
    | Running(prompt: string)
    | Saving(end: Ending)
    | Checking(end: Ending)
    | Recording(err: TaskError, slot: bool)
    | Cancelling(slot: bool)
    | Releasing(slot: bool)
    | Joined

  /** The group's shared state; `late`: the caller had cancelled before the first error was recorded. */
  datatype State<!Store> = State(
    phase: seq<Phase>,
    results: seq<TaskResult>,
    outputs: Outputs,
    warnings: Warnings,
    buffering: bool,
    stash: seq<(TaskRef, string)>,
    store: Store,
    firstErr: Option<(nat, TaskError)>,
    late: bool,
    cancelled: bool,
    outside: bool,
    sem: nat)

  /** A worker's own step; giving up at the semaphore; a call cut short by cancellation; the caller's cancellation. */
  datatype Action = Step(k: nat) | GiveUp(k: nat) | CutShort(k: nat, x: Execution) | OutsideCancel

  function Start<Store>(tasks: seq<TaskRef>, outputs: Outputs, warnings: Warnings, buffering: bool,
                        stash: seq<(TaskRef, string)>, store: Store): State<Store> {
    State(seq(|tasks|, _ => Unspawned), seq(|tasks|, _ => Empty), outputs, warnings, buffering, stash, store, None, false, false, false, 0)
  }

  predicate Capped<Store>(env: Env<Store>) { env.maxWorkers > 0 }

  ghost predicate Enabled<Store>(env: Env<Store>, s: State<Store>, a: Action) {
    match a
    case Step(k) =>
      && k < |s.phase| && s.phase[k] != Joined
      && (s.phase[k] == Unspawned ==> forall j :: 0 <= j < k ==> s.phase[j] != Unspawned)
      && (s.phase[k] == Waiting && Capped(env) ==> s.sem < env.maxWorkers)
    case GiveUp(k) => k < |s.phase| && s.phase[k] == Waiting && Capped(env) && s.cancelled
    case CutShort(k, _) =>
      k < |s.phase| && s.cancelled && (s.phase[k].Recalling? || s.phase[k].Running? || s.phase[k].Checking?)
    case OutsideCancel => !s.outside
  }

  /** The executor has returned x: the output, if any, is recorded on the task. */
  function Returned<Store>(s: State<Store>, k: nat, t: TaskRef, x: Execution): State<Store>
    requires k < |s.phase| == |s.results|
  {
    var s := s.(warnings := Warn(s.warnings, t, x.warnings));
    if EndOutput(x.end).None? then Stop(s, k, x.end)
    else s.(outputs := s.outputs[t := EndOutput(x.end).value], phase := s.phase[k := Saving(x.end)])
  }

  /** The worker writes its slot and, on an error, goes on to record it. */
  function Stop<Store>(s: State<Store>, k: nat, end: Ending): State<Store>
    requires k < |s.phase| == |s.results|
  {
    s.(results := s.results[k := EndResult(end)],
       phase := s.phase[k := if EndError(end).Some? then Recording(EndError(end).value, true) else Releasing(true)])
  }

  function Save<Store>(env: Env<Store>, s: State<Store>, t: TaskRef, end: Ending): State<Store> {
    if !env.autoSave || EndOutput(end).None? then s
    else if s.buffering then s.(stash := s.stash + [(t, EndOutput(end).value)])
    else
      var put := env.put(s.store, t, EndOutput(end).value);
      s.(store := put.store, warnings := Warn(s.warnings, t, put.warnings))
  }

  /** Worker k's own next step, on its task t. */
  function Advance<Store>(env: Env<Store>, s: State<Store>, k: nat, t: TaskRef): State<Store>
    requires k < |s.phase| == |s.results|
  {
    match s.phase[k]
    case Unspawned => s.(phase := s.phase[k := if env.hasAgent(t) then Waiting else Recording(NoAgent, false)])
    case Waiting => s.(phase := s.phase[k := Starting], sem := if Capped(env) then s.sem + 1 else s.sem)
    case Starting => s.(phase := s.phase[k := Recalling(ContextText(env, s.outputs, t))])
    case Recalling(context) => s.(phase := s.phase[k := Running(Prompt(env, context, s.store))])
    case Running(prompt) => Returned(s, k, t, env.run(t, prompt))
    case Saving(end) =>
      if end.WriteFails? then Stop(s, k, end) else Save(env, s, t, end).(phase := s.phase[k := Checking(end)])
    case Checking(end) => Stop(s, k, end)
    case Recording(err, slot) =>
      s.(firstErr := if s.firstErr.None? then Some((k, err)) else s.firstErr,
         late := if s.firstErr.None? then s.outside else s.late, phase := s.phase[k := Cancelling(slot)])
    case Cancelling(slot) => s.(cancelled := s.cancelled || env.failFast, phase := s.phase[k := Releasing(slot)])
    case Releasing(slot) => s.(sem := if Capped(env) && slot && s.sem > 0 then s.sem - 1 else s.sem, phase := s.phase[k := Joined])
    case Joined => s
  }

  function Next<Store>(env: Env<Store>, tasks: seq<TaskRef>, s: State<Store>, a: Action): State<Store>
    requires |s.phase| == |s.results| == |tasks|
    requires Enabled(env, s, a)
  {
    match a
    case OutsideCancel => s.(outside := true, cancelled := true)
    case GiveUp(k) => s.(results := s.results[k := Failed(Canceled)], phase := s.phase[k := Recording(Canceled, false)])
    case CutShort(k, x) =>
      (match s.phase[k]
       case Recalling(context) => s.(phase := s.phase[k := Running(context)])
       case Running(_) => Returned(s, k, tasks[k], x)
       case _ => Stop(s, k, Interrupted))
    case Step(k) => Advance(env, s, k, tasks[k])
  }

  ghost predicate AllJoined<Store>(s: State<Store>) {
    forall k :: 0 <= k < |s.phase| ==> s.phase[k] == Joined
  }

  // ----- the buffer, read back by task -----

  /** byTask[t] in commitMemoryBuffer: the last entry stashed for t. */
  function Lookup(stash: seq<(TaskRef, string)>, t: TaskRef): Option<string> {
    if stash == [] then None
    else if stash[|stash| - 1].0 == t then Some(stash[|stash| - 1].1)
    else Lookup(stash[..|stash| - 1], t)
  }

  lemma LookupAppend(stash: seq<(TaskRef, string)>, t: TaskRef, c: string, u: TaskRef)
    ensures Lookup(stash + [(t, c)], u) == if u == t then Some(c) else Lookup(stash, u)
  {
    assert (stash + [(t, c)])[..|stash|] == stash;
  }

  // ----- what a worker should have done, given the group's snapshot -----

  /** The snapshot a group starts from. */
  datatype Snapshot<!Store> = Snapshot(outputs: Outputs, warnings: Warnings, store: Store)

  function OwnEnd<Store>(env: Env<Store>, g: Snapshot<Store>, t: TaskRef): Execution {
    Alone(env, g.outputs, g.store, t)
  }

  function OwnError<Store>(env: Env<Store>, g: Snapshot<Store>, t: TaskRef): Option<TaskError> {
    if !env.hasAgent(t) then Some(NoAgent) else EndError(OwnEnd(env, g, t).end)
  }

  function OwnResult<Store>(env: Env<Store>, g: Snapshot<Store>, t: TaskRef): TaskResult {
    if !env.hasAgent(t) then Empty else EndResult(OwnEnd(env, g, t).end)
  }

  function OwnEntry<Store>(env: Env<Store>, g: Snapshot<Store>, t: TaskRef): Option<string> {
    if env.hasAgent(t) && env.autoSave && Saves(OwnEnd(env, g, t).end) then EndOutput(OwnEnd(env, g, t).end) else None
  }

  /** A task's row in the shared tables. */
  datatype Row = Row(output: Option<string>, warnings: Option<seq<string>>, entry: Option<string>)

  function RowOf<Store>(s: State<Store>, t: TaskRef): Row {
    Row(Get(s.outputs, t), Get(s.warnings, t), Lookup(s.stash, t))
  }

  function RowBefore<Store>(g: Snapshot<Store>, t: TaskRef): Row {
    Row(Get(g.outputs, t), Get(g.warnings, t), None)
  }

  /** The row once execution x has returned and before anything is saved. */
  function RowReturned<Store>(g: Snapshot<Store>, t: TaskRef, x: Execution): Row {
    Row(if EndOutput(x.end).Some? then EndOutput(x.end) else Get(g.outputs, t), Some(WarningsOf(g.warnings, t) + x.warnings), None)
  }

  function RowAfter<Store>(env: Env<Store>, g: Snapshot<Store>, t: TaskRef): Row {
    if !env.hasAgent(t) then RowBefore(g, t)
    else RowReturned(g, t, OwnEnd(env, g, t)).(entry := OwnEntry(env, g, t))
  }

  // ----- invariants -----

  /** The snapshot is one the group may run on: its tasks are distinct and depend on no member of the group. */
  ghost predicate Independent<Store>(env: Env<Store>, tasks: seq<TaskRef>) {
    && (forall a, b :: 0 <= a < b < |tasks| ==> tasks[a] != tasks[b])
    && forall k, d :: 0 <= k < |tasks| && d in env.context(tasks[k]) ==> d !in tasks
  }

  ghost predicate Untouched<Store>(g: Snapshot<Store>, s: State<Store>, k: nat, t: TaskRef) {
    k < |s.results| && s.results[k] == Empty && RowOf(s, t) == RowBefore(g, t)
  }

  ghost predicate Finished<Store>(env: Env<Store>, g: Snapshot<Store>, s: State<Store>, k: nat, t: TaskRef) {
    k < |s.results| && s.results[k] == OwnResult(env, g, t) && RowOf(s, t) == RowAfter(env, g, t)
  }

  /** As long as nothing is cancelled, worker k is where it would be had it run alone. */
  ghost predicate OnTrack<Store>(env: Env<Store>, g: Snapshot<Store>, tasks: seq<TaskRef>, s: State<Store>, k: nat) {
    k < |tasks| && k < |s.phase| &&
    var t := tasks[k];
    var x := OwnEnd(env, g, t);
    match s.phase[k]
    case Unspawned => Untouched(g, s, k, t)
    case Waiting => env.hasAgent(t) && Untouched(g, s, k, t)
    case Starting => env.hasAgent(t) && Untouched(g, s, k, t)
    case Recalling(context) => env.hasAgent(t) && Untouched(g, s, k, t) && context == ContextText(env, g.outputs, t)
    case Running(prompt) => env.hasAgent(t) && Untouched(g, s, k, t) && x == env.run(t, prompt)
    case Saving(end) => env.hasAgent(t) && end == x.end && EndOutput(end).Some?
                        && k < |s.results| && s.results[k] == Empty && RowOf(s, t) == RowReturned(g, t, x)
    case Checking(end) => env.hasAgent(t) && end == x.end && Saves(end)
                          && k < |s.results| && s.results[k] == Empty && RowOf(s, t) == RowAfter(env, g, t)
    case Recording(err, _) => Finished(env, g, s, k, t) && OwnError(env, g, t) == Some(err)
    case Cancelling(_) => Finished(env, g, s, k, t) && OwnError(env, g, t).Some? && s.firstErr.Some?
    case Releasing(_) => Finished(env, g, s, k, t) && (OwnError(env, g, t).Some? ==> s.firstErr.Some?)
    case Joined => Finished(env, g, s, k, t) && (OwnError(env, g, t).Some? ==> s.firstErr.Some?)
  }

  ghost predicate HoldsSlot(p: Phase) {
    match p
    case Starting => true
    case Recalling(_) => true
    case Running(_) => true
    case Saving(_) => true
    case Checking(_) => true
    case Recording(_, slot) => slot
    case Cancelling(slot) => slot
    case Releasing(slot) => slot
    case _ => false
  }

  ghost function SlotsHeld(phase: seq<Phase>): nat {
    if phase == [] then 0 else SlotsHeld(phase[..|phase| - 1]) + if HoldsSlot(phase[|phase| - 1]) then 1 else 0
  }

  /** Outside the group nothing changes, and inside it the store does not. */
  ghost predicate Sealed<Store>(g: Snapshot<Store>, tasks: seq<TaskRef>, s: State<Store>) {
    && s.buffering && s.store == g.store
    && forall t: TaskRef :: t !in tasks ==>
         RowOf(s, t) == RowBefore(g, t)
  }

  /** The group cancels itself only after an error, and a first error recorded before any cancellation by the
      caller is a task's own. */
  ghost predicate FirstErrorGenuine<Store>(env: Env<Store>, g: Snapshot<Store>, tasks: seq<TaskRef>, s: State<Store>) {
    && (s.cancelled ==> s.outside || (env.failFast && s.firstErr.Some?))
    && (s.outside ==> s.cancelled)
    && (s.late ==> s.outside)
    && (s.firstErr.Some? && !s.late ==>
          s.firstErr.value.0 < |tasks| && OwnError(env, g, tasks[s.firstErr.value.0]) == Some(s.firstErr.value.1))
  }

  /** Every error in a slot has been recorded or is about to be. */
  ghost predicate ErrorsReported<Store>(s: State<Store>) {
    forall k: nat :: k < |s.phase| && k < |s.results| && s.results[k].Failed? ==> s.phase[k].Recording? || s.firstErr.Some?
  }

  ghost predicate SlotsBounded<Store>(env: Env<Store>, s: State<Store>) {
    Capped(env) ==> s.sem == SlotsHeld(s.phase) <= env.maxWorkers
  }

  ghost predicate AllOnTrack<Store>(env: Env<Store>, g: Snapshot<Store>, tasks: seq<TaskRef>, s: State<Store>) {
    && |s.phase| == |tasks|
    && forall k: nat :: k < |tasks| ==> OnTrack(env, g, tasks, s, k)
  }

  ghost predicate Inv<Store>(env: Env<Store>, g: Snapshot<Store>, tasks: seq<TaskRef>, s: State<Store>) {
    && |s.phase| == |s.results| == |tasks|
    && Sealed(g, tasks, s)
    && FirstErrorGenuine(env, g, tasks, s)
    && ErrorsReported(s)
    && SlotsBounded(env, s)
    && (!s.cancelled ==> AllOnTrack(env, g, tasks, s))
  }

  // ----- the invariants hold at the start and survive every step -----

  lemma StartInv<Store>(env: Env<Store>, g: Snapshot<Store>, tasks: seq<TaskRef>)
    ensures Inv(env, g, tasks, Start(tasks, g.outputs, g.warnings, true, [], g.store))
  {
    var s := Start(tasks, g.outputs, g.warnings, true, [], g.store);
    NoSlots(s.phase);
    forall k: nat | k < |tasks| ensures OnTrack(env, g, tasks, s, k) {
      assert s.phase[k] == Unspawned && s.results[k] == Empty;
    }
  }

  lemma {:induction false} NoSlots(phase: seq<Phase>)
    requires forall k :: 0 <= k < |phase| ==> !HoldsSlot(phase[k])
    ensures SlotsHeld(phase) == 0
  {
    if phase != [] {
      NoSlots(phase[..|phase| - 1]);
    }
  }

  lemma {:induction false} SlotsUpdate(phase: seq<Phase>, k: nat, p: Phase)
    requires k < |phase|
    ensures SlotsHeld(phase[k := p]) + (if HoldsSlot(phase[k]) then 1 else 0) == SlotsHeld(phase) + (if HoldsSlot(p) then 1 else 0)
  {
    var front := phase[..|phase| - 1];
    if k < |front| {
      SlotsUpdate(front, k, p);
      assert phase[k := p][..|phase| - 1] == front[k := p];
    } else {
      assert phase[k := p][..|phase| - 1] == front;
    }
  }

  /** A step of worker k changes no other worker and no other task's row. */
  ghost predicate TouchesOnly<Store>(s: State<Store>, s': State<Store>, k: nat, t: TaskRef) {
    && |s'.phase| == |s.phase| && |s'.results| == |s.results|
    && (forall j: nat :: j < |s.phase| && j != k ==> s'.phase[j] == s.phase[j])
    && (forall j: nat :: j < |s.results| && j != k ==> s'.results[j] == s.results[j])
    && (forall u: TaskRef :: u != t ==> RowOf(s', u) == RowOf(s, u))
    && (s.firstErr.Some? ==> s'.firstErr == s.firstErr)
    && s'.outside == s.outside && s'.buffering == s.buffering && (s.buffering ==> s'.store == s.store)
    && (s.cancelled ==> s'.cancelled)
  }

  lemma LocalTouches<Store>(s: State<Store>, s': State<Store>, k: nat, t: TaskRef)
    requires k < |s.phase| == |s.results| == |s'.phase| == |s'.results|
    requires s'.phase == s.phase[k := s'.phase[k]] && s'.results == s.results[k := s'.results[k]]
    requires s'.outputs == s.outputs && s'.warnings == s.warnings && s'.stash == s.stash
    requires s.firstErr.Some? ==> s'.firstErr == s.firstErr
    requires s'.outside == s.outside && s'.buffering == s.buffering && s'.store == s.store && (s.cancelled ==> s'.cancelled)
    ensures TouchesOnly(s, s', k, t)
  {
  }

  lemma ReturnedTouches<Store>(s: State<Store>, k: nat, t: TaskRef, x: Execution)
    requires k < |s.phase| == |s.results|
    ensures TouchesOnly(s, Returned(s, k, t, x), k, t)
  {
    ReturnedRows(s, k, t, x);
    ReturnedShape(s, k, t, x);
    hide Returned, RowOf;
    assert TouchesOnly(s, Returned(s, k, t, x), k, t);
  }

  lemma StopRows<Store>(s: State<Store>, k: nat, end: Ending)
    requires k < |s.phase| == |s.results|
    ensures forall u: TaskRef :: RowOf(Stop(s, k, end), u) == RowOf(s, u)
  {
    hide EndError, EndResult;
  }

  lemma ReturnedRows<Store>(s: State<Store>, k: nat, t: TaskRef, x: Execution)
    requires k < |s.phase| == |s.results|
    ensures forall u: TaskRef :: u != t ==> RowOf(Returned(s, k, t, x), u) == RowOf(s, u)
  {
    hide Stop, EndError, EndResult;
    if EndOutput(x.end).None? {
      StopRows(s.(warnings := Warn(s.warnings, t, x.warnings)), k, x.end);
    }
  }

  lemma ReturnedShape<Store>(s: State<Store>, k: nat, t: TaskRef, x: Execution)
    requires k < |s.phase| == |s.results|
    ensures var s' := Returned(s, k, t, x);
            && s'.phase == s.phase[k := s'.phase[k]] && s'.results == s.results[k := s'.results[k]]
            && s'.firstErr == s.firstErr && s'.cancelled == s.cancelled && s'.outside == s.outside
            && s'.buffering == s.buffering && s'.store == s.store
  {
    hide Warn, EndError, EndResult;
    var warned := s.(warnings := Warn(s.warnings, t, x.warnings));
    if EndOutput(x.end).None? {
      assert Returned(s, k, t, x) == Stop(warned, k, x.end);
    } else {
      assert s.results[k := s.results[k]] == s.results;
    }
  }

  lemma SaveRows<Store>(env: Env<Store>, s: State<Store>, t: TaskRef, end: Ending)
    ensures forall u: TaskRef :: u != t ==> RowOf(Save(env, s, t, end), u) == RowOf(s, u)
  {
    if env.autoSave && EndOutput(end).Some? {
      forall u: TaskRef | u != t ensures RowOf(Save(env, s, t, end), u) == RowOf(s, u) {
        LookupAppend(s.stash, t, EndOutput(end).value, u);
      }
    }
  }

  lemma SaveShape<Store>(env: Env<Store>, s: State<Store>, t: TaskRef, end: Ending)
    ensures var s' := Save(env, s, t, end);
            && s'.phase == s.phase && s'.results == s.results && s'.firstErr == s.firstErr && s'.cancelled == s.cancelled
            && s'.outside == s.outside && s'.buffering == s.buffering && (s.buffering ==> s'.store == s.store)
  {
  }

  lemma SaveTouches<Store>(env: Env<Store>, s: State<Store>, k: nat, t: TaskRef, end: Ending, p: Phase)
    requires k < |s.phase|
    ensures TouchesOnly(s, Save(env, s, t, end).(phase := s.phase[k := p]), k, t)
  {
    SaveRows(env, s, t, end);
    SaveShape(env, s, t, end);
    var s1 := Save(env, s, t, end);
    hide Save;
    var s' := s1.(phase := s.phase[k := p]);
    forall u: TaskRef | u != t ensures RowOf(s', u) == RowOf(s, u) {
      assert RowOf(s1, u) == RowOf(s, u);
    }
  }

  lemma StopTouches<Store>(s: State<Store>, k: nat, t: TaskRef, end: Ending)
    requires k < |s.phase| == |s.results|
    ensures TouchesOnly(s, Stop(s, k, end), k, t)
  {
  }

  lemma AdvanceTouches<Store>(env: Env<Store>, s: State<Store>, k: nat, t: TaskRef)
    requires k < |s.phase| == |s.results|
    ensures TouchesOnly(s, Advance(env, s, k, t), k, t)
  {
    hide TouchesOnly, Save, Returned, Stop, ContextText, Prompt;
    match s.phase[k] {
      case Running(prompt) => ReturnedTouches(s, k, t, env.run(t, prompt));
      case Saving(end) =>
        if end.WriteFails? {
          StopTouches(s, k, t, end);
        } else {
          SaveTouches(env, s, k, t, end, Checking(end));
        }
      case Checking(end) => StopTouches(s, k, t, end);
      case Unspawned => EnteringTouches(env, s, k, t);
      case Waiting => EnteringTouches(env, s, k, t);
      case Starting => EnteringTouches(env, s, k, t);
      case Recalling(_) => EnteringTouches(env, s, k, t);
      case _ => LeavingTouches(env, s, k, t);
    }
  }

  lemma EnteringTouches<Store>(env: Env<Store>, s: State<Store>, k: nat, t: TaskRef)
    requires k < |s.phase| == |s.results|
    requires s.phase[k].Unspawned? || s.phase[k].Waiting? || s.phase[k].Starting? || s.phase[k].Recalling?
    ensures TouchesOnly(s, Advance(env, s, k, t), k, t)
  {
    hide TouchesOnly, Save, Returned, Stop, ContextText, Prompt;
    match s.phase[k] {
      case Unspawned => LocalTouches(s, Advance(env, s, k, t), k, t);
      case Waiting => LocalTouches(s, Advance(env, s, k, t), k, t);
      case Starting => LocalTouches(s, Advance(env, s, k, t), k, t);
      case Recalling(_) => LocalTouches(s, Advance(env, s, k, t), k, t);
    }
  }

  lemma LeavingTouches<Store>(env: Env<Store>, s: State<Store>, k: nat, t: TaskRef)
    requires k < |s.phase| == |s.results|
    requires s.phase[k].Recording? || s.phase[k].Cancelling? || s.phase[k].Releasing? || s.phase[k].Joined?
    ensures TouchesOnly(s, Advance(env, s, k, t), k, t)
  {
    hide TouchesOnly, Save, Returned, Stop, ContextText, Prompt;
    match s.phase[k] {
      case Recording(_, _) => LocalTouches(s, Advance(env, s, k, t), k, t);
      case Cancelling(_) => LocalTouches(s, Advance(env, s, k, t), k, t);
      case Releasing(_) => LocalTouches(s, Advance(env, s, k, t), k, t);
      case Joined => LocalTouches(s, Advance(env, s, k, t), k, t);
    }
  }

  lemma NextTouches<Store>(env: Env<Store>, tasks: seq<TaskRef>, s: State<Store>, a: Action)
    requires |s.phase| == |s.results| == |tasks| && Enabled(env, s, a) && !a.OutsideCancel?
    ensures TouchesOnly(s, Next(env, tasks, s, a), a.k, tasks[a.k])
  {
    hide TouchesOnly, Returned, Advance;
    var k, t := a.k, tasks[a.k];
    if a.Step? {
      AdvanceTouches(env, s, k, t);
    } else if a.CutShort? && s.phase[k].Running? {
      ReturnedTouches(s, k, t, a.x);
    } else {
      LocalTouches(s, Next(env, tasks, s, a), k, t);
    }
  }

  /** A worker's step replaces its own phase, and the semaphore counts what the phases hold. */
  ghost predicate Paced<Store>(env: Env<Store>, s: State<Store>, s': State<Store>, k: nat) {
    && k < |s.phase| && |s'.phase| == |s.phase| && |s'.results| == |s.results|
    && s'.outside == s.outside && s'.phase == s.phase[k := s'.phase[k]] && Rank(s'.phase[k]) < Rank(s.phase[k])
    && (Capped(env) && (HoldsSlot(s.phase[k]) ==> s.sem > 0) ==>
          s'.sem + (if HoldsSlot(s.phase[k]) then 1 else 0) == s.sem + (if HoldsSlot(s'.phase[k]) then 1 else 0))
    && (s'.sem <= s.sem || (s.phase[k] == Waiting && s'.sem == s.sem + 1))
  }

  lemma ReturnedPaced<Store>(env: Env<Store>, s: State<Store>, k: nat, t: TaskRef, x: Execution)
    requires k < |s.phase| == |s.results| && s.phase[k].Running?
    ensures Paced(env, s, Returned(s, k, t, x), k)
  {
    hide Warn, EndError, EndResult;
    var warned := s.(warnings := Warn(s.warnings, t, x.warnings));
    if EndOutput(x.end).None? {
      assert Returned(s, k, t, x) == Stop(warned, k, x.end);
    } else {
      assert Returned(s, k, t, x).phase[k] == Saving(x.end);
    }
  }

  lemma StopPaced<Store>(env: Env<Store>, s: State<Store>, k: nat, end: Ending)
    requires k < |s.phase| == |s.results| && (s.phase[k].Saving? || s.phase[k].Checking?)
    ensures Paced(env, s, Stop(s, k, end), k)
  {
  }

  lemma AdvancePaced<Store>(env: Env<Store>, s: State<Store>, k: nat, t: TaskRef)
    requires k < |s.phase| == |s.results| && s.phase[k] != Joined
    ensures Paced(env, s, Advance(env, s, k, t), k)
  {
    hide Returned, Stop, ContextText, Prompt;
    match s.phase[k] {
      case Running(prompt) => ReturnedPaced(env, s, k, t, env.run(t, prompt));
      case Saving(end) =>
        if end.WriteFails? {
          StopPaced(env, s, k, end);
        } else {
          SavePaced(env, s, k, t, end);
        }
      case Checking(end) => StopPaced(env, s, k, end);
      case _ =>
        hide Save;
    }
  }

  lemma SavePaced<Store>(env: Env<Store>, s: State<Store>, k: nat, t: TaskRef, end: Ending)
    requires k < |s.phase| == |s.results| && s.phase[k].Saving?
    ensures Paced(env, s, Save(env, s, t, end).(phase := s.phase[k := Checking(end)]), k)
  {
  }

  lemma NextPaced<Store>(env: Env<Store>, tasks: seq<TaskRef>, s: State<Store>, a: Action)
    requires |s.phase| == |s.results| == |tasks| && Enabled(env, s, a) && !a.OutsideCancel?
    ensures Paced(env, s, Next(env, tasks, s, a), a.k)
  {
    hide Returned, Advance, Stop, Paced;
    match a {
      case Step(k) => AdvancePaced(env, s, k, tasks[k]);
      case GiveUp(k) => GiveUpPaced(env, tasks, s, k);
      case CutShort(k, x) =>
        match s.phase[k] {
          case Running(_) => ReturnedPaced(env, s, k, tasks[k], x);
          case Recalling(context) => CutRecallPaced(env, s, k, context);
          case Checking(_) => StopPaced(env, s, k, Interrupted);
        }
    }
  }

  lemma GiveUpPaced<Store>(env: Env<Store>, tasks: seq<TaskRef>, s: State<Store>, k: nat)
    requires |s.phase| == |s.results| == |tasks| && Enabled(env, s, GiveUp(k))
    ensures Paced(env, s, Next(env, tasks, s, GiveUp(k)), k)
  {
    hide Returned, Advance, Stop;
  }

  lemma CutRecallPaced<Store>(env: Env<Store>, s: State<Store>, k: nat, context: string)
    requires k < |s.phase| == |s.results| && s.phase[k].Recalling?
    ensures Paced(env, s, s.(phase := s.phase[k := Running(context)]), k)
  {
  }

  lemma NextSealed<Store>(env: Env<Store>, g: Snapshot<Store>, tasks: seq<TaskRef>, s: State<Store>, a: Action)
    requires |s.phase| == |s.results| == |tasks| && Enabled(env, s, a) && Sealed(g, tasks, s)
    ensures Sealed(g, tasks, Next(env, tasks, s, a))
  {
    var s' := Next(env, tasks, s, a);
    hide Next, Enabled;
    if a.OutsideCancel? {
      NextOutside(env, tasks, s);
    } else {
      NextTouches(env, tasks, s, a);
      forall u: TaskRef | u !in tasks ensures RowOf(s', u) == RowOf(s, u) {
        StepTask(env, tasks, s, a);
      }
    }
  }

  lemma StepTask<Store>(env: Env<Store>, tasks: seq<TaskRef>, s: State<Store>, a: Action)
    requires |s.phase| == |tasks| && Enabled(env, s, a) && !a.OutsideCancel?
    ensures a.k < |tasks| && tasks[a.k] in tasks
  {
  }

  lemma NextSlots<Store>(env: Env<Store>, tasks: seq<TaskRef>, s: State<Store>, a: Action)
    requires |s.phase| == |s.results| == |tasks| && Enabled(env, s, a) && SlotsBounded(env, s)
    ensures SlotsBounded(env, Next(env, tasks, s, a))
  {
    var s' := Next(env, tasks, s, a);
    hide Next;
    if a.OutsideCancel? {
      NextOutside(env, tasks, s);
    } else {
      NextPaced(env, tasks, s, a);
      SlotsUpdate(s.phase, a.k, s'.phase[a.k]);
      if HoldsSlot(s.phase[a.k]) {
        HeldSlot(s.phase, a.k);
      }
    }
  }

  lemma NextOutside<Store>(env: Env<Store>, tasks: seq<TaskRef>, s: State<Store>)
    requires |s.phase| == |s.results| == |tasks| && Enabled(env, s, OutsideCancel)
    ensures Next(env, tasks, s, OutsideCancel) == s.(outside := true, cancelled := true)
  {
  }

  lemma {:induction false} HeldSlot(phase: seq<Phase>, k: nat)
    requires k < |phase| && HoldsSlot(phase[k])
    ensures SlotsHeld(phase) > 0
  {
    if k < |phase| - 1 {
      HeldSlot(phase[..|phase| - 1], k);
    }
  }

  /** What a step is while the task is in its executor. */
  lemma AdvanceIs<Store>(env: Env<Store>, s: State<Store>, k: nat, t: TaskRef)
    requires k < |s.phase| == |s.results|
    ensures s.phase[k].Running? ==> Advance(env, s, k, t) == Returned(s, k, t, env.run(t, s.phase[k].prompt))
    ensures s.phase[k].Checking? ==> Advance(env, s, k, t) == Stop(s, k, s.phase[k].end)
    ensures s.phase[k].Saving? ==>
              var end := s.phase[k].end;
              Advance(env, s, k, t) == if end.WriteFails? then Stop(s, k, end) else Save(env, s, t, end).(phase := s.phase[k := Checking(end)])
  {
    hide ContextText, Prompt, Returned, Stop, Save;
  }

  /** And what it is afterwards. */
  lemma LeavingForm<Store>(env: Env<Store>, s: State<Store>, k: nat, t: TaskRef)
    requires k < |s.phase| == |s.results|
    requires s.phase[k].Recording? || s.phase[k].Cancelling? || s.phase[k].Releasing? || s.phase[k].Joined?
    ensures var s' := Advance(env, s, k, t);
            && s'.results == s.results && s'.outside == s.outside
            && s'.firstErr == (if s.phase[k].Recording? && s.firstErr.None? then Some((k, s.phase[k].err)) else s.firstErr)
            && s'.late == (if s.phase[k].Recording? && s.firstErr.None? then s.outside else s.late)
            && s'.cancelled == (s.cancelled || (s.phase[k].Cancelling? && env.failFast))
            && |s'.phase| == |s.phase| && (s.phase[k].Recording? ==> s'.firstErr.Some?) && !s'.phase[k].Recording?
  {
    hide ContextText, Prompt, Returned, Stop, Save;
    match s.phase[k] {
      case Recording(_, _) =>
      case Cancelling(_) =>
      case Releasing(_) =>
      case Joined =>
    }
  }

  /** A step into the executor changes its worker's phase and the semaphore. */
  lemma EnteringForm<Store>(env: Env<Store>, s: State<Store>, k: nat, t: TaskRef)
    requires k < |s.phase| == |s.results|
    requires s.phase[k].Unspawned? || s.phase[k].Waiting? || s.phase[k].Starting? || s.phase[k].Recalling?
    ensures var s' := Advance(env, s, k, t);
            s' == s.(phase := s.phase[k := s'.phase[k]], sem := s'.sem) && |s'.phase| == |s.phase|
  {
    hide ContextText, Prompt, Returned, Stop, Save;
    match s.phase[k] {
      case Unspawned =>
      case Waiting =>
      case Starting =>
      case Recalling(_) =>
    }
  }

  lemma AdvanceFirstErr<Store>(env: Env<Store>, s: State<Store>, k: nat, t: TaskRef)
    requires k < |s.phase| == |s.results|
    ensures var s' := Advance(env, s, k, t);
            && s'.firstErr == (if s.phase[k].Recording? && s.firstErr.None? then Some((k, s.phase[k].err)) else s.firstErr)
            && s'.late == (if s.phase[k].Recording? && s.firstErr.None? then s.outside else s.late)
            && s'.cancelled == (s.cancelled || (s.phase[k].Cancelling? && env.failFast))
            && s'.outside == s.outside
  {
    hide Advance, Returned, Stop, Save;
    AdvanceIs(env, s, k, t);
    match s.phase[k] {
      case Running(prompt) => ReturnedQuiet(s, k, t, env.run(t, prompt));
      case Saving(end) =>
        StopQuiet(s, k, end);
        SaveQuiet(env, s, t, end);
      case Checking(end) => StopQuiet(s, k, end);
      case Recording(_, _) => LeavingForm(env, s, k, t);
      case Cancelling(_) => LeavingForm(env, s, k, t);
      case Releasing(_) => LeavingForm(env, s, k, t);
      case Joined => LeavingForm(env, s, k, t);
      case _ => EnteringForm(env, s, k, t);
    }
  }

  ghost predicate Quiet<Store>(s: State<Store>, s': State<Store>) {
    s'.firstErr == s.firstErr && s'.late == s.late && s'.cancelled == s.cancelled && s'.outside == s.outside
  }

  lemma ReturnedQuiet<Store>(s: State<Store>, k: nat, t: TaskRef, x: Execution)
    requires k < |s.phase| == |s.results|
    ensures Quiet(s, Returned(s, k, t, x))
  {
  }

  lemma StopQuiet<Store>(s: State<Store>, k: nat, end: Ending)
    requires k < |s.phase| == |s.results|
    ensures Quiet(s, Stop(s, k, end))
  {
  }

  lemma SaveQuiet<Store>(env: Env<Store>, s: State<Store>, t: TaskRef, end: Ending)
    ensures Quiet(s, Save(env, s, t, end))
  {
  }

  lemma RecordsOwn<Store>(env: Env<Store>, g: Snapshot<Store>, tasks: seq<TaskRef>, s: State<Store>, k: nat)
    requires OnTrack(env, g, tasks, s, k)
    ensures s.phase[k].Recording? ==> OwnError(env, g, tasks[k]) == Some(s.phase[k].err)
    ensures s.phase[k].Cancelling? ==> s.firstErr.Some?
  {
    hide Finished, Untouched, OwnError;
  }

  lemma NextFirstErr<Store>(env: Env<Store>, g: Snapshot<Store>, tasks: seq<TaskRef>, s: State<Store>, a: Action)
    requires Inv(env, g, tasks, s) && Enabled(env, s, a)
    ensures FirstErrorGenuine(env, g, tasks, Next(env, tasks, s, a))
  {
    hide Advance, OnTrack, Sealed, ErrorsReported, SlotsBounded, OwnError;
    if a.CutShort? && s.phase[a.k].Running? {
      ReturnedQuiet(s, a.k, tasks[a.k], a.x);
    }
    hide Returned;
    if a.Step? {
      AdvanceFirstErr(env, s, a.k, tasks[a.k]);
      if !s.cancelled {
        assert OnTrack(env, g, tasks, s, a.k);
        RecordsOwn(env, g, tasks, s, a.k);
      }
    }
  }

  /** The worker that steps has recorded its error, or goes on to. */
  ghost predicate SelfReported<Store>(s: State<Store>, k: nat) {
    k < |s.phase| && k < |s.results| && (s.results[k].Failed? ==> s.phase[k].Recording? || s.firstErr.Some?)
  }

  lemma ReturnedReports<Store>(s: State<Store>, k: nat, t: TaskRef, x: Execution)
    requires SelfReported(s, k) && |s.phase| == |s.results| && s.phase[k].Running?
    ensures SelfReported(Returned(s, k, t, x), k)
  {
  }

  lemma StopReports<Store>(s: State<Store>, k: nat, end: Ending)
    requires k < |s.phase| == |s.results|
    ensures SelfReported(Stop(s, k, end), k)
  {
  }

  lemma EnteringPhases<Store>(env: Env<Store>, s: State<Store>, k: nat, t: TaskRef)
    requires k < |s.phase| == |s.results|
    requires s.phase[k].Unspawned? || s.phase[k].Waiting? || s.phase[k].Starting? || s.phase[k].Recalling?
    requires SelfReported(s, k)
    ensures SelfReported(Advance(env, s, k, t), k)
  {
    EnteringForm(env, s, k, t);
    hide Advance;
  }

  lemma AdvanceReports<Store>(env: Env<Store>, s: State<Store>, k: nat, t: TaskRef)
    requires SelfReported(s, k) && |s.phase| == |s.results|
    ensures SelfReported(Advance(env, s, k, t), k)
  {
    hide Advance, Returned, Stop, Save;
    AdvanceIs(env, s, k, t);
    match s.phase[k] {
      case Running(prompt) => ReturnedReports(s, k, t, env.run(t, prompt));
      case Saving(end) =>
        StopReports(s, k, end);
        SaveShape(env, s, t, end);
      case Checking(end) => StopReports(s, k, end);
      case Recording(_, _) => LeavingForm(env, s, k, t);
      case Cancelling(_) => LeavingForm(env, s, k, t);
      case Releasing(_) => LeavingForm(env, s, k, t);
      case Joined => LeavingForm(env, s, k, t);
      case _ => EnteringPhases(env, s, k, t);
    }
  }

  lemma NextReports<Store>(env: Env<Store>, tasks: seq<TaskRef>, s: State<Store>, a: Action)
    requires |s.phase| == |s.results| == |tasks| && Enabled(env, s, a) && !a.OutsideCancel?
    requires SelfReported(s, a.k)
    ensures SelfReported(Next(env, tasks, s, a), a.k)
  {
    hide Returned, Advance, Stop;
    match a {
      case Step(k) => AdvanceReports(env, s, k, tasks[k]);
      case CutShort(k, x) =>
        StopReports(s, k, Interrupted);
        if s.phase[k].Running? {
          ReturnedReports(s, k, tasks[k], x);
        }
      case GiveUp(_) =>
    }
  }

  lemma NextReported<Store>(env: Env<Store>, tasks: seq<TaskRef>, s: State<Store>, a: Action)
    requires |s.phase| == |s.results| == |tasks| && Enabled(env, s, a) && ErrorsReported(s)
    ensures ErrorsReported(Next(env, tasks, s, a))
  {
    if a.OutsideCancel? {
      NextOutside(env, tasks, s);
    } else {
      NextTouches(env, tasks, s, a);
      StepTask(env, tasks, s, a);
      assert SelfReported(s, a.k);
      NextReports(env, tasks, s, a);
      hide Next, Enabled;
      var s' := Next(env, tasks, s, a);
      forall k: nat | k < |s'.phase| && k < |s'.results| && s'.results[k].Failed?
        ensures s'.phase[k].Recording? || s'.firstErr.Some? {
        assert k != a.k ==> s'.phase[k] == s.phase[k] && s'.results[k] == s.results[k];
      }
    }
  }

  lemma ContextStable<Store>(env: Env<Store>, g: Snapshot<Store>, tasks: seq<TaskRef>, s: State<Store>, k: nat)
    requires Independent(env, tasks) && Sealed(g, tasks, s) && k < |tasks|
    ensures ContextText(env, s.outputs, tasks[k]) == ContextText(env, g.outputs, tasks[k])
  {
    var deps := env.context(tasks[k]);
    forall i | 0 <= i < |deps| ensures OutputOf(s.outputs, deps[i]) == OutputOf(g.outputs, deps[i]) {
      assert deps[i] in deps;
      assert RowOf(s, deps[i]) == RowBefore(g, deps[i]);
    }
    assert OutputsOf(s.outputs, deps) == OutputsOf(g.outputs, deps);
  }

  lemma OthersOnTrack<Store>(env: Env<Store>, g: Snapshot<Store>, tasks: seq<TaskRef>, s: State<Store>,
                             s': State<Store>, k: nat, j: nat)
    requires Independent(env, tasks) && |s.phase| == |s.results| == |tasks| && k < |tasks| && j < |tasks| && j != k
    requires TouchesOnly(s, s', k, tasks[k]) && OnTrack(env, g, tasks, s, j)
    ensures OnTrack(env, g, tasks, s', j)
  {
    assert RowOf(s', tasks[j]) == RowOf(s, tasks[j]);
  }

  lemma ReturnedRow<Store>(g: Snapshot<Store>, s: State<Store>, k: nat, t: TaskRef, x: Execution)
    requires k < |s.phase| == |s.results| && RowOf(s, t) == RowBefore(g, t)
    ensures var s' := Returned(s, k, t, x);
            && RowOf(s', t) == RowReturned(g, t, x)
            && s'.phase == s.phase[k := s'.phase[k]]
            && (if EndOutput(x.end).Some? then s'.phase[k] == Saving(x.end) && s'.results == s.results
                else s'.phase[k] == Recording(EndError(x.end).value, true) && s'.results == s.results[k := EndResult(x.end)])
  {
    ReturnedMoves(s, k, t, x);
    ReturnedTable(g, s, k, t, x);
    hide Returned, RowOf, RowReturned;
  }

  lemma ReturnedMoves<Store>(s: State<Store>, k: nat, t: TaskRef, x: Execution)
    requires k < |s.phase| == |s.results|
    ensures var s' := Returned(s, k, t, x);
            && s'.phase == s.phase[k := s'.phase[k]]
            && (if EndOutput(x.end).Some? then s'.phase[k] == Saving(x.end) && s'.results == s.results
                else EndError(x.end).Some? && s'.phase[k] == Recording(EndError(x.end).value, true) && s'.results == s.results[k := EndResult(x.end)])
  {
    hide Warn, EndResult;
  }

  lemma ReturnedTable<Store>(g: Snapshot<Store>, s: State<Store>, k: nat, t: TaskRef, x: Execution)
    requires k < |s.phase| == |s.results| && RowOf(s, t) == RowBefore(g, t)
    ensures RowOf(Returned(s, k, t, x), t) == RowReturned(g, t, x)
  {
    hide EndError, EndResult;
    if EndOutput(x.end).None? {
      StopRows(s.(warnings := Warn(s.warnings, t, x.warnings)), k, x.end);
    }
  }

  lemma SelfReturned<Store>(env: Env<Store>, g: Snapshot<Store>, tasks: seq<TaskRef>, s: State<Store>, k: nat)
    requires |s.phase| == |s.results| == |tasks| && k < |tasks|
    requires s.phase[k].Running? && OnTrack(env, g, tasks, s, k)
    ensures OnTrack(env, g, tasks, Returned(s, k, tasks[k], env.run(tasks[k], s.phase[k].prompt)), k)
  {
    hide Alone, Returned, RowOf, RowBefore;
    ReturnedRow(g, s, k, tasks[k], env.run(tasks[k], s.phase[k].prompt));
  }

  lemma SelfSaved<Store>(env: Env<Store>, g: Snapshot<Store>, tasks: seq<TaskRef>, s: State<Store>, k: nat)
    requires |s.phase| == |s.results| == |tasks| && k < |tasks| && s.buffering
    requires s.phase[k].Saving? && !s.phase[k].end.WriteFails? && OnTrack(env, g, tasks, s, k)
    ensures var end := s.phase[k].end;
            var s' := Save(env, s, tasks[k], end).(phase := s.phase[k := Checking(end)]);
            OnTrack(env, g, tasks, s', k) && TouchesOnly(s, s', k, tasks[k])
  {
    SaveTouches(env, s, k, tasks[k], s.phase[k].end, Checking(s.phase[k].end));
    hide Alone, TouchesOnly;
    LookupAppend(s.stash, tasks[k], EndOutput(s.phase[k].end).value, tasks[k]);
  }

  lemma SelfStopped<Store>(env: Env<Store>, g: Snapshot<Store>, tasks: seq<TaskRef>, s: State<Store>, k: nat,
                           end: Ending)
    requires |s.phase| == |s.results| == |tasks| && k < |tasks| && OnTrack(env, g, tasks, s, k)
    requires s.phase[k] == Checking(end) || (s.phase[k] == Saving(end) && end.WriteFails?)
    ensures OnTrack(env, g, tasks, Stop(s, k, end), k)
  {
    hide Alone;
  }

  lemma SelfOnTrack<Store>(env: Env<Store>, g: Snapshot<Store>, tasks: seq<TaskRef>, s: State<Store>, k: nat)
    requires Independent(env, tasks) && |s.phase| == |s.results| == |tasks| && k < |tasks|
    requires Sealed(g, tasks, s) && s.phase[k] != Joined && OnTrack(env, g, tasks, s, k)
    ensures OnTrack(env, g, tasks, Advance(env, s, k, tasks[k]), k)
  {
    hide OnTrack, Returned, Save, Stop;
    match s.phase[k] {
      case Running(_) => SelfReturned(env, g, tasks, s, k);
      case Saving(end) =>
        if end.WriteFails? {
          SelfStopped(env, g, tasks, s, k, end);
        } else {
          SelfSaved(env, g, tasks, s, k);
        }
      case Checking(end) => SelfStopped(env, g, tasks, s, k, end);
      case Unspawned => SelfEntering(env, g, tasks, s, k);
      case Waiting => SelfEntering(env, g, tasks, s, k);
      case Starting => SelfEntering(env, g, tasks, s, k);
      case Recalling(_) => SelfEntering(env, g, tasks, s, k);
      case Recording(_, _) => SelfLeaving(env, g, tasks, s, k);
      case Cancelling(_) => SelfLeaving(env, g, tasks, s, k);
      case Releasing(_) => SelfLeaving(env, g, tasks, s, k);
    }
  }

  lemma SelfEntering<Store>(env: Env<Store>, g: Snapshot<Store>, tasks: seq<TaskRef>, s: State<Store>, k: nat)
    requires Independent(env, tasks) && |s.phase| == |s.results| == |tasks| && k < |tasks|
    requires Sealed(g, tasks, s) && OnTrack(env, g, tasks, s, k)
    requires s.phase[k].Unspawned? || s.phase[k].Waiting? || s.phase[k].Starting? || s.phase[k].Recalling?
    ensures OnTrack(env, g, tasks, Advance(env, s, k, tasks[k]), k)
  {
    hide Returned, Save, Stop, Prompt, ContextText;
    ContextStable(env, g, tasks, s, k);
  }

  lemma SelfLeaving<Store>(env: Env<Store>, g: Snapshot<Store>, tasks: seq<TaskRef>, s: State<Store>, k: nat)
    requires |s.phase| == |s.results| == |tasks| && k < |tasks| && OnTrack(env, g, tasks, s, k)
    requires s.phase[k].Recording? || s.phase[k].Cancelling? || s.phase[k].Releasing?
    ensures OnTrack(env, g, tasks, Advance(env, s, k, tasks[k]), k)
  {
    hide Returned, Save, Stop, RowAfter, OwnResult, OwnError;
  }

  /** Without a cancellation only ordinary steps happen. */
  lemma StepOnly<Store>(env: Env<Store>, tasks: seq<TaskRef>, s: State<Store>, a: Action)
    requires |s.phase| == |s.results| == |tasks| && Enabled(env, s, a) && !Next(env, tasks, s, a).cancelled
    ensures a.Step? && !s.cancelled && a.k < |tasks| && s.phase[a.k] != Joined
    ensures Next(env, tasks, s, a) == Advance(env, s, a.k, tasks[a.k])
  {
    if !a.OutsideCancel? {
      NextTouches(env, tasks, s, a);
    }
    hide Advance;
  }

  lemma NextOnTrack<Store>(env: Env<Store>, g: Snapshot<Store>, tasks: seq<TaskRef>, s: State<Store>, a: Action)
    requires Independent(env, tasks) && Inv(env, g, tasks, s) && Enabled(env, s, a)
    requires !Next(env, tasks, s, a).cancelled
    ensures AllOnTrack(env, g, tasks, Next(env, tasks, s, a))
  {
    var s' := Next(env, tasks, s, a);
    StepOnly(env, tasks, s, a);
    NextTouches(env, tasks, s, a);
    hide OnTrack, Next, Advance, Enabled, FirstErrorGenuine, ErrorsReported, SlotsBounded;
    forall j: nat | j < |tasks| ensures OnTrack(env, g, tasks, s', j) {
      if j == a.k {
        SelfOnTrack(env, g, tasks, s, j);
      } else {
        OthersOnTrack(env, g, tasks, s, s', a.k, j);
      }
    }
  }

  lemma NextSizes<Store>(env: Env<Store>, tasks: seq<TaskRef>, s: State<Store>, a: Action)
    requires |s.phase| == |s.results| == |tasks| && Enabled(env, s, a)
    ensures |Next(env, tasks, s, a).phase| == |Next(env, tasks, s, a).results| == |tasks|
  {
    if !a.OutsideCancel? {
      NextPaced(env, tasks, s, a);
    }
  }

  /** Every step of every interleaving keeps the invariants. */
  lemma NextInv<Store>(env: Env<Store>, g: Snapshot<Store>, tasks: seq<TaskRef>, s: State<Store>, a: Action)
    requires Independent(env, tasks) && Inv(env, g, tasks, s) && Enabled(env, s, a)
    ensures Inv(env, g, tasks, Next(env, tasks, s, a))
  {
    NextSizes(env, tasks, s, a);
    hide Next, Sealed, FirstErrorGenuine, ErrorsReported, SlotsBounded, AllOnTrack, Enabled;
    NextReported(env, tasks, s, a);
    NextSealed(env, g, tasks, s, a);
    NextSlots(env, tasks, s, a);
    NextFirstErr(env, g, tasks, s, a);
    if !Next(env, tasks, s, a).cancelled {
      NextOnTrack(env, g, tasks, s, a);
    }
  }

  // ----- no interleaving gets stuck or runs forever -----

  function Rank(p: Phase): nat {
    match p
    case Unspawned => 10
    case Waiting => 9
    case Starting => 8
    case Recalling(_) => 7
    case Running(_) => 6
    case Saving(_) => 5
    case Checking(_) => 4
    case Recording(_, _) => 3
    case Cancelling(_) => 2
    case Releasing(_) => 1
    case Joined => 0
  }

  function Work(phase: seq<Phase>): nat {
    if phase == [] then 0 else Work(phase[..|phase| - 1]) + Rank(phase[|phase| - 1])
  }

  lemma {:induction false} WorkUpdate(phase: seq<Phase>, k: nat, p: Phase)
    requires k < |phase|
    ensures Work(phase[k := p]) + Rank(phase[k]) == Work(phase) + Rank(p)
  {
    var front := phase[..|phase| - 1];
    if k < |front| {
      WorkUpdate(front, k, p);
      assert phase[k := p][..|phase| - 1] == front[k := p];
    } else {
      assert phase[k := p][..|phase| - 1] == front;
    }
  }

  function Remaining<Store>(s: State<Store>): nat {
    Work(s.phase) + if s.outside then 0 else 1
  }

  lemma NextShrinks<Store>(env: Env<Store>, tasks: seq<TaskRef>, s: State<Store>, a: Action)
    requires |s.phase| == |s.results| == |tasks| && Enabled(env, s, a)
    ensures Remaining(Next(env, tasks, s, a)) < Remaining(s)
  {
    var s' := Next(env, tasks, s, a);
    if !a.OutsideCancel? {
      NextPaced(env, tasks, s, a);
      hide Next;
      WorkUpdate(s.phase, a.k, s'.phase[a.k]);
    }
  }

  /** Unless everyone has joined, some worker can step: the semaphore never deadlocks the group. */
  lemma SomeoneCanStep<Store>(env: Env<Store>, s: State<Store>) returns (k: nat)
    requires SlotsBounded(env, s) && !AllJoined(s)
    ensures Enabled(env, s, Step(k))
  {
    if i: nat :| i < |s.phase| && s.phase[i] == Unspawned {
      k := FirstUnspawned(s.phase, i);
    } else if i: nat :| i < |s.phase| && s.phase[i] != Joined && s.phase[i] != Waiting {
      k := i;
    } else {
      k :| 0 <= k < |s.phase| && s.phase[k] != Joined;
      NoSlots(s.phase);
    }
  }

  lemma {:induction false} FirstUnspawned(phase: seq<Phase>, i: nat) returns (k: nat)
    requires i < |phase| && phase[i] == Unspawned
    ensures k < |phase| && phase[k] == Unspawned && forall j :: 0 <= j < k ==> phase[j] != Unspawned
  {
    if j: nat :| j < i && phase[j] == Unspawned {
      k := FirstUnspawned(phase, j);
    } else {
      k := i;
    }
  }

  // ----- whole runs -----

  /** A run of the machine: any interleaving, from the armed start. */
  ghost predicate IsRun<Store>(env: Env<Store>, g: Snapshot<Store>, tasks: seq<TaskRef>, run: seq<State<Store>>) {
    && |run| > 0 && run[0] == Start(tasks, g.outputs, g.warnings, true, [], g.store)
    && forall i: nat :: 0 < i < |run| ==> StepsTo(env, tasks, run[i - 1], run[i])
  }

  ghost predicate StepsTo<Store>(env: Env<Store>, tasks: seq<TaskRef>, s: State<Store>, s': State<Store>) {
    && |s.phase| == |s.results| == |tasks|
    && exists a :: Enabled(env, s, a) && s' == Next(env, tasks, s, a)
  }

  /** In every reachable state: the store is untouched while the group is open, slots are within the cap,
      and the first error, absent a cancellation from outside, is some task's own. */
  lemma {:induction false} ReachableInv<Store>(env: Env<Store>, g: Snapshot<Store>, tasks: seq<TaskRef>,
                                               run: seq<State<Store>>, i: nat)
    requires Independent(env, tasks) && IsRun(env, g, tasks, run) && i < |run|
    ensures Inv(env, g, tasks, run[i])
  {
    hide Inv, Next, Enabled, Start;
    if i == 0 {
      StartInv(env, g, tasks);
    } else {
      ReachableInv(env, g, tasks, run, i - 1);
      assert StepsTo(env, tasks, run[i - 1], run[i]);
      var a :| Enabled(env, run[i - 1], a) && run[i] == Next(env, tasks, run[i - 1], a);
      NextInv(env, g, tasks, run[i - 1], a);
    }
  }

  /** Every interleaving ends: a run has no more steps than the phases allow. */
  lemma {:induction false} RunsEnd<Store>(env: Env<Store>, g: Snapshot<Store>, tasks: seq<TaskRef>,
                                          run: seq<State<Store>>)
    requires Independent(env, tasks) && IsRun(env, g, tasks, run)
    ensures Remaining(run[|run| - 1]) + |run| - 1 <= 10 * |tasks| + 1
  {
    if |run| == 1 {
      StartWork(tasks, g);
    } else {
      var n := |run| - 1;
      RunsEnd(env, g, tasks, run[..n]);
      assert StepsTo(env, tasks, run[n - 1], run[n]);
      var a :| Enabled(env, run[n - 1], a) && run[n] == Next(env, tasks, run[n - 1], a);
      NextShrinks(env, tasks, run[n - 1], a);
    }
  }

  lemma StartWork<Store>(tasks: seq<TaskRef>, g: Snapshot<Store>)
    ensures Remaining(Start(tasks, g.outputs, g.warnings, true, [], g.store)) <= 10 * |tasks| + 1
  {
    AllUnspawned(Start(tasks, g.outputs, g.warnings, true, [], g.store).phase);
  }

  lemma {:induction false} AllUnspawned(phase: seq<Phase>)
    requires forall k :: 0 <= k < |phase| ==> phase[k] == Unspawned
    ensures Work(phase) == 10 * |phase|
  {
    if phase != [] {
      AllUnspawned(phase[..|phase| - 1]);
    }
  }

  /** Some task of the group fails on its own. */
  ghost predicate SomeoneFails<Store>(env: Env<Store>, g: Snapshot<Store>, tasks: seq<TaskRef>) {
    exists k: nat :: k < |tasks| && OwnError(env, g, tasks[k]).Some?
  }

  /** The tables a group leaves behind when it is not cancelled: one sequential pass over the snapshot. */
  ghost predicate AsIfAlone<Store>(env: Env<Store>, g: Snapshot<Store>, tasks: seq<TaskRef>, s: State<Store>) {
    && |s.results| == |tasks|
    && (forall k: nat :: k < |tasks| ==> Finished(env, g, s, k, tasks[k]))
    && Sealed(g, tasks, s)
  }

  /** How a joined group ended. An error recorded before any cancellation by the caller is a task's own. If the
      caller cancelled nothing, there is an error exactly when some task has one of its own; otherwise, or without
      fail-fast, the group ends as if run one by one. */
  lemma JoinedOutcome<Store>(env: Env<Store>, g: Snapshot<Store>, tasks: seq<TaskRef>, s: State<Store>)
    requires Inv(env, g, tasks, s) && AllJoined(s)
    ensures s.firstErr.Some? && !s.late ==>
              s.firstErr.value.0 < |tasks| && OwnError(env, g, tasks[s.firstErr.value.0]) == Some(s.firstErr.value.1)
    ensures s.late ==> s.outside
    ensures s.firstErr.None? ==> forall k: nat :: k < |s.results| ==> !s.results[k].Failed?
    ensures !s.outside ==> (s.firstErr.Some? <==> SomeoneFails(env, g, tasks))
    ensures !s.outside && (!env.failFast || s.firstErr.None?) ==> AsIfAlone(env, g, tasks, s)
  {
    if !s.cancelled {
      forall k: nat | k < |tasks| ensures Finished(env, g, s, k, tasks[k]) && (OwnError(env, g, tasks[k]).Some? ==> s.firstErr.Some?) {
        assert OnTrack(env, g, tasks, s, k);
      }
    }
  }

  // ----- every run is the choice of a scheduler -----

  /** A scheduler picks an enabled action in every state of a group that has not joined. */
  ghost predicate Schedules<Store(!new)>(env: Env<Store>, scheduler: State<Store> -> Action) {
    forall s: State<Store> :: !AllJoined(s) && SlotsBounded(env, s) ==> Enabled(env, s, scheduler(s))
  }

  /** Action a takes the run from its i-th state to the next. */
  ghost predicate Takes<Store>(env: Env<Store>, tasks: seq<TaskRef>, run: seq<State<Store>>, i: nat, a: Action) {
    && 0 < i < |run| && |run[i - 1].phase| == |run[i - 1].results| == |tasks|
    && Enabled(env, run[i - 1], a) && run[i] == Next(env, tasks, run[i - 1], a)
  }

  /** What the run does in state s; elsewhere, any enabled action. */
  ghost function Choice<Store>(env: Env<Store>, tasks: seq<TaskRef>, run: seq<State<Store>>, s: State<Store>): Action {
    if exists i: nat, a: Action :: Takes(env, tasks, run, i, a) && run[i - 1] == s then
      var i: nat, a: Action :| Takes(env, tasks, run, i, a) && run[i - 1] == s;
      a
    else if exists a: Action :: Enabled(env, s, a) then
      var a: Action :| Enabled(env, s, a);
      a
    else OutsideCancel
  }

  lemma {:induction false} LaterIsLess<Store>(env: Env<Store>, tasks: seq<TaskRef>, run: seq<State<Store>>, i: nat,
                                              j: nat)
    requires i < j < |run| && forall n: nat :: 0 < n < |run| ==> StepsTo(env, tasks, run[n - 1], run[n])
    ensures Remaining(run[j]) < Remaining(run[i])
  {
    hide Next, Enabled, Remaining;
    assert StepsTo(env, tasks, run[j - 1], run[j]);
    var a :| Enabled(env, run[j - 1], a) && run[j] == Next(env, tasks, run[j - 1], a);
    NextShrinks(env, tasks, run[j - 1], a);
    if i < j - 1 {
      LaterIsLess(env, tasks, run, i, j - 1);
    }
  }

  ghost predicate Follows<Store>(env: Env<Store>, tasks: seq<TaskRef>, run: seq<State<Store>>, i: nat,
                                 scheduler: State<Store> -> Action) {
    0 < i < |run| && Takes(env, tasks, run, i, scheduler(run[i - 1]))
  }

  /** Schedulers lose no interleaving: every run is the run of some scheduler, since no run repeats a state. */
  lemma EveryRun<Store(!new)>(env: Env<Store>, g: Snapshot<Store>, tasks: seq<TaskRef>, run: seq<State<Store>>)
    returns (scheduler: State<Store> -> Action)
    requires IsRun(env, g, tasks, run)
    ensures Schedules(env, scheduler)
    ensures forall i: nat :: 0 < i < |run| ==> Follows(env, tasks, run, i, scheduler)
  {
    scheduler := s => Choice(env, tasks, run, s);
    hide Next, Enabled, Remaining;
    forall s: State<Store> | !AllJoined(s) && SlotsBounded(env, s) ensures Enabled(env, s, scheduler(s)) {
      var k := SomeoneCanStep(env, s);
      assert Enabled(env, s, Step(k));
    }
    forall i: nat | 0 < i < |run| ensures Follows(env, tasks, run, i, scheduler) {
      ChoiceFollows(env, tasks, run, i);
    }
  }

  lemma ChoiceFollows<Store>(env: Env<Store>, tasks: seq<TaskRef>, run: seq<State<Store>>, i: nat)
    requires 0 < i < |run| && forall n: nat :: 0 < n < |run| ==> StepsTo(env, tasks, run[n - 1], run[n])
    ensures Takes(env, tasks, run, i, Choice(env, tasks, run, run[i - 1]))
  {
    hide Next, Enabled, Remaining;
    assert StepsTo(env, tasks, run[i - 1], run[i]);
    var b :| Enabled(env, run[i - 1], b) && run[i] == Next(env, tasks, run[i - 1], b);
    assert Takes(env, tasks, run, i, b);
    var a := Choice(env, tasks, run, run[i - 1]);
    var j: nat :| Takes(env, tasks, run, j, a) && run[j - 1] == run[i - 1];
    if j != i {
      LaterIsLess(env, tasks, run, if j < i then j - 1 else i - 1, if j < i then i - 1 else j - 1);
    }
  }
}
