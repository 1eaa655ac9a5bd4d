# The deterministic engine of crewai-go, modelled and proved in Dafny

crewai-go runs crews of LLM-backed tasks. Under the model calls sits a small deterministic engine: a planner that
layers tasks by their dependencies, an executor that runs each layer concurrently behind a barrier, a router-gated
flow runner, two memory stores, a JSON Schema validator with `$ref` bookkeeping, and two scanners. This project
models that engine and proves what its documentation and tests rely on. Calls to models, tools, steps, embedders and
library functions (regular expressions, formats, float parsing, case folding) are oracles: arbitrary functions of
their inputs.

## How the files fit together

- `Digraph.dfy`, `Kahn.dfy`: finite dependency multigraphs, layerings, and the tables of Kahn's algorithm. Shared by
  the task planner and the flow runner.
- `Schedule.dfy`, `WaveOrder.dfy`: `planWaves`, and what its contract determines.
- `TaskGroup.dfy`: one barrier-bounded group of concurrent tasks as a state machine; a run of the machine is an
  interleaving of the workers' steps.
- `Crew.dfy`: the executor around it (`runAsyncWaves`, `runWaveGroup`, the AutoSave buffer), proved against a
  sequential reference for every choice of schedulers, one for each group of each wave. `TaskGroup.EveryRun` shows
  that schedulers lose no interleaving. `FailureClosure.dfy`: what a whole run without fail-fast leaves behind.
- `Transcript.dfy`, `RunOrder.dfy`: a completed run told as events, one task at a time, in full and in terms of the
  outcomes alone; and what that fixes: the order of tasks and reports, and what each task was told.
- `Kickoff.dfy`: the asynchronous path end to end, plan and run.
- `Facts.dfy`: deduplication of facts.
- `FlowGraph.dfy`, `FlowRun.dfy`: the flow runner, from validation to the last trace. `FlowMeaning.dfy`: its result in
  terms of names, declared dependencies and step outcomes.
- `Recall.dfy`, `StoreLog.dfy`, `FileStore.dfy`, `Memory.dfy`, `StoreRuns.dfy`: bounded ranked recall, the durable
  store's log and index, both stores, and both under the same operations. `StoreAnswers.dfy`: a query's answer in terms
  of the list it is asked of.
- `Json.dfy`, `JsonPointer.dfy`, `SchemaMeaning.dfy`, `SchemaSound.dfy`, `SchemaValidator.dfy`: local references
  (RFC 6901), the declarative meaning of the supported schema keywords, and the validator. `SchemaKeywords.dfy`: each
  keyword in terms of the value. `SchemaReading.dfy` and `SchemaRecursion.dfy`: where the validator parts from the
  standard meaning.
- `Calculator.dfy`, `JsonDepth.dfy`, `ToolLoop.dfy`: the calculator, the argument-depth scanner and the native tool
  loop.
- `Common.dfy`, `Decimals.dfy`: options, string search, decimal notation.

Main results, in words:

- For every interleaving of the workers and every answer of the oracles, a run the caller does not cancel ends in
  exactly the state of the sequential reference (outputs, facts, warnings, final text, committed store, failed set);
  under fail-fast, whether it aborts does not depend on the interleaving, and the error it aborts with is a task's own.
  Whoever cancels, an error means fail-fast and a group that leaves store and crew output as they were.
- A completed run is its events played one after another: wave by wave, the Async tasks first, each kind in the wave's
  order; the final text is the last report's. Every task was told the outputs its dependencies have when the run ends.
- `planWaves` succeeds exactly on distinct tasks with an acyclic in-list dependency graph; each task's wave is the
  length of the longest dependency path ending at it, and the whole plan is a function of the graph.
- A flow's final statuses are the unique solution of the gating equations for the observed outcomes: a step is skipped
  exactly when a dependency is not done or is a router that did not select it, and a router fails exactly when it
  errs or routes to a step that does not listen to it.
- An index rebuilt from its log is the index in RAM, dead slots included, and stands for the list the log spells out.
- On two empty stores, any sequence of operations that never Puts a live id gets the same answers from the file
  store and the in-memory store, metadata apart, and they are those of one reference list per scope: the entries that
  mention the query's text, newest first, or with an embedding the best, up to the limits.
- When the validator ends with fewer than 256 references followed and the schema's references nest at most 32 deep,
  it accepts exactly the documents that satisfy the schema's declarative meaning as coded, whatever the iteration
  order of maps; and, if no schema under `properties` is `false`, its meaning with `properties` read as JSON Schema does.
- The calculator accepts exactly the inputs of its grammar that have a value, and returns it.

## Where the code parts from its comments

The model follows the code.

- schedule.go:12 and :25 promise ascending indexes within a wave. `WaveOrder.WavesAscendingIff` says exactly when that
  holds; `WaveOrder.DescendingWave` is a plan with the wave [3, 2].
- memory_policy.go:126-127 says a failed task leaves no buffer entry. A task blocked by its guardrail does
  (`FailureClosure.SavedThoughFailed`, `FailureClosure.GroupCommits`).
- A task without an agent, without fail-fast, is neither failed nor reported (crew.go:1045-1052, 734-737);
  `FailureClosure.Closure` shows it as run, not failed and without output.
- filestore.go:153-161 rolls a failed Put back exactly only under the condition of `StoreLog.RollBackExact`.
- memory.go appends an entry whose id is already present where the file store replaces it (`Memory.RepeatedId`);
  the agreement of the stores (`StoreRuns.RunBoth`) is for runs that never Put a live id.
- schema.go refuses a reference that is already being resolved (schema.go:154-158), although a child value may
  satisfy it. A refusal is an error, so it can reject too much: of the linked-list schema
  `{"$ref": "#/$defs/t", "$defs": {"t": {"properties": {"next": {"$ref": "#/$defs/t"}}}}}`, whose meaning admits every
  document, the code accepts exactly those without a next cell (`SchemaRecursion.ListRejected`,
  `SchemaRecursion.ListSat`). Under `not` it can accept too much: with `{"not": {"$ref": "#/$defs/t"}}` as the schema
  of next, the code accepts every document, `{"next": {}}` among them, which the meaning does not admit
  (`SchemaRecursion.NotListAccepted`, `SchemaRecursion.NotListUnsound`). Neither schema is within any bound on nested
  references (`SchemaRecursion.NeverWithin`), the condition under which no reference is refused.
- schema.go:112 says a false schema never matches; schema.go:535-539 skips boolean schemas under `properties`.
  `SchemaMeaning.Sat` has both readings, `Standard` and `AsCoded`; they differ in nothing else, and both keep the
  code's extensions (limits written as strings, boolean exclusive bounds, lengths in bytes). The code accepts every
  document under `{"properties": {k: false}}`, the standard reading admits only those without a field k
  (`SchemaReading.FalseProperty`). On an object they differ exactly by the present fields whose schema is false
  (`SchemaReading.PropertiesExact`), and without such a schema in reach they are one (`SchemaReading.ReadingsAgree`).
- schema.go:726-768 parts from RFC 6901 in three ways. It reads array indexes with a sign or with leading zeros, which
  section 4 does not allow: 01 is taken as 1 (`JsonPointer.LeadingZero`, `JsonPointer.OddStepExact`). It lets a ~ stand
  that no 0 or 1 follows, which section 3 does not allow (`JsonPointer.BadEscape`). And it refuses a pointer whose text
  contains `://` (`JsonPointer.PointerRoundTrip`, against `JsonPointer.RfcRoundTrip`). `JsonPointer.RfcResolvesOn` says on
  which documents a reference resolves as sections 3 and 4 of RFC 6901 say, `JsonPointer.RfcResolvesAlike` which
  references do on all. Percent escapes (section 6) are left as they stand by both.
- schedule.go:103-108 says that a task left over is part of a cycle, and the error names one as such. It may only lie
  behind a cycle: with task 1 the Context of 0 and of 2, and 2 that of 1, task 0 is named (`WaveOrder.NamedOffCycle`).

## Model

| member | source | states |
|---|---|---|
| Digraph.TrappedBehindCycle | schedule.go:103-108 | nodes that each depend on another of the set all lie behind a cycle |
| Digraph.LayeringAcyclic | schedule.go:110-112 | a layering with every dependency strictly earlier excludes cycles |
| Digraph.TightIsLongest | schedule.go:16-19 | in the tight layering a node's layer is the length of the longest walk ending at it |
| Digraph.TightIsEarliest | schedule.go:16-19 | no valid layering puts any node earlier than the tight one |
| Kahn.BuildEdges | schedule.go:43-60 | the indegree and adjacency tables encode the in-list dependency multigraph; the first self-dependency is reported, exactly when there is one |
| Kahn.ReleaseDependents | schedule.go:85-96 | releasing a wave leaves the open-dependency counts right and returns the newly ready tasks, each once, in unlock order |
| Kahn.FirstReady | schedule.go:70-77 | the tasks without in-list dependencies, ascending |
| Schedule.BuildIndex | schedule.go:35-41 | the first repeated task pointer is found, or the index maps every task to its position |
| Schedule.AssignWaves | schedule.go:62-101 | every wave number is recorded, placed tasks are closed under dependencies and as early as possible, and every task left over has an open dependency |
| Schedule.PlanWaves | schedule.go:30-114 | a plan exactly for distinct tasks and an acyclic in-list graph; then the waves partition the tasks by longest dependency path, in unlock order; otherwise the exact error with the least offending index |
| WaveOrder.PlanUnique | schedule.go:27-29 | the plan is a function of the graph: membership, wave order and order inside each wave |
| WaveOrder.WaveMeans | schedule.go:16-19 | every task is in one wave, after those of all its listed dependencies; the first wave's have none, a later one's have one in the wave before |
| WaveOrder.WavesAscendingIff | schedule.go:10-14 | the waves are in index order exactly when no later task unlocks before an earlier one of its layer |
| WaveOrder.DescendingWave | schedule.go:85-100 | for tasks 0 to 3 with 1 the Context of 2 and 0 the Context of 3, the plan is [0, 1] and [3, 2] |
| WaveOrder.NamedOffCycle | schedule.go:103-108 | for tasks 0 to 2 with 1 the Context of 0 and 2, and 2 that of 1, no task depends on itself, task 0 lies behind a cycle and on none |
| Facts.Dedup | fact.go:124-140 | existing facts stay in front, and the hashes are the old ones and the new nonempty ones |
| Facts.DedupFacts | fact.go:127-140 | the loop over a seen set is that function |
| Facts.DedupAppend | fact.go:124-140 | deduplicating task by task is deduplicating everything at once |
| Facts.DedupDistinct | fact.go:124-140 | no hash is repeated |
| Facts.DedupKeepsFirst | fact.go:124-140 | the first fact of each new hash is the one kept |
| TaskGroup.StartInv | crew.go:1006-1014 | a group starts within its invariants |
| TaskGroup.NextSealed | memory_policy.go:133-144 | while a group is open no step changes the store, or the row of any task outside it |
| TaskGroup.NextSlots | crew.go:1035-1041 | a step keeps the held slots equal to the semaphore count and within AsyncMaxWorkers |
| TaskGroup.NextFirstErr | crew.go:1017-1033 | the group cancels itself only after its first error is set; an error recorded before any cancellation by the caller is a task's own, and stays so |
| TaskGroup.NextReported | crew.go:1027-1033 | an error in a slot has been recorded or is about to be |
| TaskGroup.NextOnTrack | crew.go:1055-1109 | as long as nothing is cancelled, every worker is where it would be had it run alone on the group's snapshot |
| TaskGroup.NextInv | crew.go:1006-1114 | every step of every interleaving keeps all of these |
| TaskGroup.ReachableInv | crew.go:1006-1114 | so every reachable state of every run has them |
| TaskGroup.NextShrinks | crew.go:1055-1109 | every step brings the group nearer its join |
| TaskGroup.SomeoneCanStep | crew.go:1066-1077 | unless all have joined, some worker can step: the semaphore never deadlocks the group |
| TaskGroup.RunsEnd | crew.go:1111-1113 | every interleaving reaches the barrier within a bounded number of steps |
| TaskGroup.EveryRun | crew.go:1044-1114 | every run of a group is that of some scheduler, a function of the state alone: no run repeats a state |
| TaskGroup.ContextStable | crew.go:1003-1004 | a member's context text does not change while the group is open |
| TaskGroup.SelfSaved | crew.go:1171-1190 | a saving worker stashes its own output, and no other worker, row or store changes |
| TaskGroup.JoinedOutcome | crew.go:1006-1114 | a joined group without an error has none in any slot; an error recorded before any cancellation by the caller is a task's own; if the caller cancelled nothing, there is an error exactly when some task has one of its own, and otherwise, or without fail-fast, every slot and row is as if each task had run alone |
| AsyncCrew.Crew.BeginMemoryBuffer | memory_policy.go:133-142 | buffering is on and the buffer empty |
| AsyncCrew.Crew.DiscardMemoryBuffer | memory_policy.go:144-152 | buffering is off and the buffer gone |
| AsyncCrew.Crew.CommitMemoryBuffer | memory_policy.go:162-200 | the stashed entries are Put in group order, whatever the order of stashing; failures become warnings |
| AsyncCrew.Crew.RunTaskGroup | crew.go:1006-1114 | under any scheduler the group joins in a state with all the invariants, the store untouched |
| AsyncCrew.Crew.MarkFailed | crew.go:755-764 | the failed set gains the task |
| AsyncCrew.Crew.FoldResults | crew.go:722-752 | results are folded in group order into output, facts, warnings, final text and failed set |
| AsyncCrew.Crew.RunWaveGroup | crew.go:678-753 | for every interleaving the caller does not cancel the group ends as its sequential reference; under any cancellation an error means fail-fast, store, output and unrelated rows as before and every member marked failed with it, and no error means every member was folded in order |
| AsyncCrew.Crew.FoldGroup | crew.go:719-752 | the barrier of a group that goes on: commit and fold are those of the sequential reference, and every member is folded in order |
| AsyncCrew.Crew.SkipFailed | crew.go:608-622 | the tasks left are those the one-level check does not skip; the skipped ones are marked failed |
| AsyncCrew.Crew.Partition | crew.go:624-632 | the remaining tasks split into the Async ones and the others; that each keeps the order of the wave is `Transcript.PickInOrder` |
| AsyncCrew.Crew.RunChunks | crew.go:634-654 | the Async subset runs in chunks of at most AsyncMaxWorkers, each on the snapshot the one before left and under a scheduler of its own |
| AsyncCrew.Crew.RunSingles | crew.go:656-667 | each other task runs alone, under schedulers of its own |
| AsyncCrew.Crew.RunOneWave | crew.go:599-673 | a wave ends as its sequential reference, however its groups are scheduled |
| AsyncCrew.Crew.RunAsyncWaves | crew.go:593-676 | however each group of each wave is scheduled, a run over a plan that the caller does not cancel ends as the sequential reference: the same outputs, facts, warnings, final text, store and failed set, or aborted where it aborts; under any cancellation an error means fail-fast |
| AsyncCrew.CommitIsSeqSave | memory_policy.go:185-199 | committing the buffer saves what running the tasks one by one would have saved, in the same order |
| AsyncCrew.GroupTables | crew.go:998-1005 | the tables a joined group leaves are those of one sequential pass over its snapshot |
| AsyncCrew.FoldIsSeq | crew.go:722-752 | folding the concurrent slots is folding the sequential results |
| AsyncCrew.PlannedIndependent | schedule.go:110-112 | any part of a planned wave is a group of distinct tasks none of which depends on another |
| AsyncCrew.OneWaveOnly | schedule.go:62-66 | no task is in two waves |
| Transcript.GroupPlays | crew.go:678-753 | a group's barrier leaves what its tasks leave one after another, each run on the group's snapshot: outputs, warnings, store, reports, failures |
| Transcript.EventEnds | crew.go:1127-1201 | what each way of ending an execution leaves: interrupted, failed, output not written, blocked, succeeded |
| Transcript.SeesIs | crew.go:1127-1165 | what an agent is told: the text made of its dependencies' outputs, and the recalled memory where the policy injects it |
| Transcript.FirstFailedIs | crew.go:768-778 | the error names the first failed dependency in Context order, with its error |
| Transcript.SkipsInOrder | crew.go:608-622 | skipped and remaining tasks both keep the order of the wave |
| Transcript.PickInOrder | crew.go:624-632 | the Async tasks, and the others, keep the order of the remaining ones |
| Transcript.ChunkFor | crew.go:634-641 | the p-th Async task is in the chunk that begins at the last multiple of AsyncMaxWorkers not after p |
| Transcript.WaveScripted | crew.go:599-673 | a completed wave is played from a script: each task once, skips first, then the Async tasks, then the others, in the wave's order, each with what it sees at the start of its chunk |
| Transcript.RunScripted | crew.go:593-676 | so is a completed run, wave after wave |
| RunOrder.OrderKept | crew.go:593-676 | of two tasks that ran, or were reported, the one of the earlier wave comes first; in a wave Async tasks come before the others, and those of one kind in the wave's order |
| RunOrder.OutputAddsUp | crew.go:722-752 | the final text is the last report's output, the warnings are all reports' and the facts their first of each hash |
| RunOrder.RunTold | crew.go:593-676 | every task that ran was told the outputs its dependencies have at the end of the run, and the memory as an earlier part of the run left it |
| FailureClosure.SkipPassIs | crew.go:608-622 | within a wave the pass skips exactly the tasks with a dependency failed before the wave |
| FailureClosure.FailedUpstreamIs | crew.go:768-778 | an error is found exactly when some Context entry is in the failed set |
| FailureClosure.SkippedIff | crew.go:755-778 | that one level is enough: the skipped tasks are those some failed task reaches |
| FailureClosure.WaveSettles | crew.go:599-673 | every wave settles its tasks once and keeps what earlier waves settled |
| FailureClosure.Closure | crew.go:593-676 | without fail-fast a run completes; each task ran once or was skipped; skipped exactly when another, failed task leads to it; the failed set is the failed tasks and everything downstream; outputs are those of the tasks an agent ran without failing, in execution order |
| FailureClosure.SavedThoughFailed | crew.go:1171-1198 | a failed task leaves an entry in the buffer exactly when AutoSave is on and its guardrail blocked it |
| FailureClosure.SavedThoughCutShort | crew.go:1171-1198 | so does one cut short in its guardrail after AutoSave, whatever its own end |
| FailureClosure.GroupCommits | memory_policy.go:185-199 | with an appending store, a completed group commits its entries in group order, a guardrail-blocked member's included |
| Kickoff.KickoffAsync | crew.go:336-460 | refused exactly without tasks or without a plan, and then nothing runs; otherwise, for every store, scheduling of every group and oracle, a run the caller does not cancel ends as the sequential reference over the plan; without an error it is its script played, in order, and its output adds up; without fail-fast it completes with failure closure |
| FlowGraph.CheckNodes | flow.go:188-214 | the per-node checks pass exactly when names are distinct, nodes well formed and some step has no dependencies; otherwise the first node at fault and its fault are reported |
| FlowGraph.CheckDeps | flow.go:215-229 | the first dependency, in registration order, that is its own step or unknown, if there is one |
| FlowGraph.Validate | flow.go:188-234 | a flow is accepted exactly when it is well formed, closed under dependencies and acyclic; otherwise the error is the first fault in registration order |
| FlowGraph.DetectCycle | flow.go:236-269 | Kahn's count reaches every node exactly when the graph has no cycle |
| FlowRun.GatingUnique | flow.go:289-308 | the gating equations have one solution on an acyclic flow, whatever the barriers were |
| FlowRun.DepsState | flow.go:289-308 | finished exactly when no dependency is pending; then a step passes exactly when every dependency is done and every router among them selected it |
| FlowRun.CollectReady | flow.go:271-287 | exactly the enabled pending steps are ready and exactly the blocked ones are skipped, in registration order |
| FlowRun.RunWave | flow.go:316-343 | each ready step's outcome lands in its own slot |
| FlowRun.CheckRoute | flow.go:383-416 | a route is a selection exactly when every name is a registered listener of the router; otherwise the first bad name is the error |
| FlowRun.FoldWave | flow.go:345-430 | statuses, selections, traces and errors after a barrier, traces in registration order, and the lowest failing step's error |
| FlowRun.RunBarrier | flow.go:148-169 | a barrier settles exactly the pending steps whose dependencies are settled, at least one, each with its verdict, and changes no other status; gating, dating, trace order and errors are kept |
| FlowRun.NothingPending | flow.go:149-151 | with no cycle, a barrier with nothing to do finds nothing pending |
| FlowRun.Run | flow.go:112-186 | rejected exactly when invalid, and then with the first fault in registration order; final statuses solve the gating equations; one trace per settled step, by barrier then registration, after its dependencies' traces; at most n barriers; nothing pending unless aborted; and exactly which error is returned |
| FlowRun.CompleteOrder | flow.go:142-169 | a complete run dates every step by its longest dependency chain |
| FlowRun.CompleteRunsAgree | flow.go:108-111 | two complete runs, as `Run` returns them, on the same outcomes agree on statuses, dates, traces and errors |
| FlowMeaning.EdgeIs | flow.go:236-249 | one step is an edge to another exactly when the other declares it by name |
| FlowMeaning.RouteErrorIs | flow.go:383-416 | a route is legal exactly when every name is a registered step that declares the router; otherwise the error is about the first that is not, and tells unknown from not a listener |
| FlowMeaning.RunMeans | flow.go:112-186 | every settled step: skipped exactly when a dependency is not done or is a router that did not select it; done exactly when it then returns no error and a legal route; failed with the right error; and one trace each, after its dependencies' |
| FlowMeaning.ErrorMeans | flow.go:158-166 | the step error returned is that of the first failed step of the last barrier |
| FlowMeaning.ValidIsRunnable | flow.go:188-234 | a flow is accepted exactly when its steps are named, distinct and bound, start steps have no dependencies, some step has none, all dependencies are registered and there is no loop |
| Recall.TakeLatestN | memory_embed.go:130-145 | the longest part of the newest-first list within both limits |
| Recall.RankUnique | memory_embed.go:79-85 | score descending, newer first, is a total order: a list has one ranking |
| Recall.RankRanked | memory_embed.go:79-85 | the sorted list is in that order |
| Recall.RankMembers | memory_embed.go:79-85 | and holds the same items |
| Recall.FirstPass | memory_embed.go:87-101 | the greedy cut of the ranking |
| Recall.SecondPass | memory_embed.go:111-127 | the greedy cut of its positive part |
| Recall.TrimIsFilter | memory_embed.go:102-127 | the second pass is the first one without the entries that score zero or less |
| Recall.RankByEmbedding | memory_embed.go:61-128 | the cut of the ranking, or of its positive part if there is one |
| Recall.ZeroScoresLatest | memory_embed.go:91-94 | when every score is zero, the answer is the latest-N answer |
| Recall.ClampLimit | memory_embed.go:43-47 | the limit falls in 1 to 32; which it is, and how it binds, is `StoreAnswers.CutFits` |
| Recall.AnswersBounded | memory_embed.go:41-53 | no answer exceeds 32 entries, or a nonnegative character limit |
| Recall.AnswersUnique | memory_embed.go:61-145 | a query has one answer |
| StoreAnswers.CutFits | memory_embed.go:41-53 | an answer is the longest start of its order within the limits: 8 entries unless 1 to 32 are asked for, 4000 characters unless said otherwise, any number if negative |
| StoreAnswers.AnswersRecall | filestore.go:175-210 | the order is newest first of the entries that mention the text (of all, if it is blank), or with an embedding best first, newest first among equals, of those that score above zero (of all, if none does) |
| StoreAnswers.TextMentioned | filestore.go:190-198 | a text query returns only entries of the list whose content or task contains the text |
| StoreAnswers.AllMentioned | filestore.go:190-198 | and every one of them when no limit binds |
| StoreAnswers.PositiveOnly | memory_embed.go:102-127 | an embedding query returns only positive scores if there are any, in descending order |
| StoreLog.LiveUpsert | filestore.go:143-150 | the live view of an upsert is the list with the entry replaced in place, or appended |
| StoreLog.LiveDropped | filestore.go:233-236 | the live view of a delete is the list without the entry |
| StoreLog.LogLine | filestore.go:424-450 | an entry line puts its entry in the place of the one with its id, or at the end; lines that are blank, unusable or without an id change nothing |
| StoreLog.LogTombstone | filestore.go:424-450 | a tombstone takes out the entries with its id and keeps the others in order |
| StoreLog.LiveReplay | filestore.go:400-462 | the index rebuilt from a log, dead slots and all, stands for the list the log spells out |
| StoreLog.LiveHasId | filestore.go:190-193 | an id is live exactly when the index knows it, and live ids are distinct |
| StoreLog.RollBackExact | filestore.go:153-161 | a failed Put leaves no trace exactly when its id was not live, or the same entry sat in a slot other than the last |
| StoreLog.FailedPutLive | filestore.go:153-161 | otherwise the list keeps the new value, or loses the entry if it was the last |
| FileStore.LoadScope | filestore.go:400-462 | the loop over lines rebuilds that index, skipping blank and unusable lines |
| FileStore.FileStore.Open | filestore.go:85-111 | every scope's index is the one its log rebuilds |
| FileStore.FileStore.Put | filestore.go:119-169 | the whole new state in every case: cancelled, too large, closed, append failed, meta failed, stored; and when index and log still agree |
| FileStore.FileStore.PutEntry | filestore.go:143-168 | index and log after a Put, the roll-back included |
| FileStore.FileStore.Query | filestore.go:175-210 | the answer over the live, matching entries, as an answer of Recall and in plain terms of the live list |
| FileStore.FileStore.Delete | filestore.go:215-247 | the whole new state in every case; index and log always agree afterwards if they did before |
| FileStore.Reopen | filestore.go:249-271 | after closing and opening again every index is the same |
| Memory.Memory.Put | memory.go:127-165 | the entry is appended with its id and time, or refused as too large |
| Memory.Memory.Delete | memory.go:216-226 | the first record with the id in the scope goes; ids are drawn for the records passed over |
| Memory.Memory.Query | memory.go:173-212 | the answer over the scope's matching records, as an answer of Recall and in plain terms of the list |
| Memory.PutBridged | memory.go:152-163 | a Put of an id not live keeps the records equal to the list of the log |
| Memory.DeleteBridged | memory.go:216-226 | so does a Delete |
| Memory.StoresAgree | memory_store.go:82-84 | stores with equal logs, which is what the same operations lead to, answer every query alike, metadata apart |
| Memory.RepeatedId | memory.go:152-163 | appending is what the file store does exactly when the id is not live |
| StoreRuns.KnownIds | filestore.go:190-193 | after the same operations the file store's index knows exactly the ids on the reference list |
| StoreRuns.KnownSlots | memory.go:216-226 | and the in-memory store holds a record exactly for those |
| StoreRuns.PutAppends | memory_store.go:87-95 | a Put of an id not live adds the entry at the end, unchanged but for an id and a time if it had none, unless it is over 32 KiB |
| StoreRuns.DeleteKeepsOthers | memory_store.go:87-95 | a Delete takes out the entries with the id and keeps the others in order |
| StoreRuns.PutBoth | memory_store.go:87-95 | the same Put of an id not live keeps both stores equal to the reference list, in every scope |
| StoreRuns.DeleteBoth | memory_store.go:87-95 | the same Delete does: a tombstone is written exactly when a record goes |
| StoreRuns.QueryBoth | memory_store.go:87-95 | the same Query gets the same answer from both, metadata apart, and it is what the reference list recalls |
| StoreRuns.RunBoth | memory_store.go:82-95 | on empty stores, for every sequence of operations that never Puts a live id and draws only new ones, every Query's answers are alike, metadata apart, and what the reference list recalls |
| JsonPointer.ResolveLocalRef | schema.go:726-768 | the walk over the pointer's tokens is the reference resolution |
| JsonPointer.UnescapeEscape | schema.go:748-749 | replacing ~1 and then ~0 undoes RFC 6901 escaping |
| JsonPointer.TokensText | schema.go:746-749 | splitting and unescaping a pointer's text gives back its keys |
| JsonPointer.ContainsText | schema.go:731-733 | a pointer contains :// exactly when some key ends in a colon, the next is empty and another follows |
| JsonPointer.PointerRoundTrip | schema.go:726-768 | resolving the pointer to a path finds the node there, unless the text looks like a URL |
| JsonPointer.AtoiDecimal | schema.go:756-761 | an index written in decimal is read back |
| JsonPointer.PathRoundTrip | schema.go:726-768 | the pointer to a path through objects and arrays finds the node there, unless its text looks like a URL |
| JsonPointer.LeadingZero | schema.go:756-761 | the code reads the index 01 as 1, which RFC 6901 does not allow |
| JsonPointer.OddIndexes | schema.go:756-761 | so it reads 00, +1 and -0; 0 and 10 are indexes of RFC 6901, and -1 is none to either |
| JsonPointer.OddStepExact | schema.go:747-766 | on a document the code's walk is that of RFC 6901 unless it finds its node through such an index |
| JsonPointer.AlongFound | schema.go:747-766 | every list of tokens has a document it leads through, by such a step exactly when some token is such an index |
| JsonPointer.BadEscape | schema.go:748-749 | the code finds the key ~2 by the token ~2, which is no token of RFC 6901 |
| JsonPointer.RfcRoundTrip | schema.go:726-768 | by RFC 6901 the pointer to a path always finds the node there |
| JsonPointer.RfcResolvesOn | schema.go:726-768 | on a document the code finds what sections 3 and 4 of RFC 6901 find, unless it refuses a pointer for ://, lets a bad escape pass or takes such an index |
| JsonPointer.RfcResolvesAlike | schema.go:726-768 | a reference resolves by sections 3 and 4 of RFC 6901 on every document exactly when it has no pointer, or a well escaped one without :// and without such an index, or an ill escaped one with :// |
| SchemaSound.JudgeIsSat | schema.go:226-370 | when no reference is refused the verdict is the declarative meaning of the keywords, $ref with siblings as intersection and boolean schemas under properties as coded |
| SchemaSound.AnyOfIsSat | schema.go:372-388 | anyOf, though it stops at the first match, is existence |
| SchemaSound.OneOfIsSat | schema.go:372-388 | oneOf's count is exactly one match |
| SchemaSound.IfIsSat | schema.go:284-296 | if / then / else |
| SchemaSound.ObjectIsSat | schema.go:533-575 | properties, as coded, and additional properties |
| SchemaKeywords.ChecksAre | schema.go:390-615 | for every schema, the checks without subschemas are: type, enum, const, bounds and exclusive bounds, lengths and counts, pattern, format, required, closed objects, unique items, said of the value |
| SchemaKeywords.SimpleDecides | schema.go:283-370 | a schema without subschemas is judged, and means, exactly that |
| SchemaKeywords.Bounds | schema.go:438-456 | minimum n passes a number exactly from n up, maximum n up to n; other values pass |
| SchemaKeywords.ExclusiveBounds | schema.go:457-497 | the exclusive ones leave out n itself |
| SchemaKeywords.Lengths | schema.go:390-408 | minLength and maxLength bound a string's bytes |
| SchemaKeywords.FieldCounts | schema.go:501-516 | minProperties and maxProperties bound the number of fields |
| SchemaKeywords.ElementCounts | schema.go:579-594 | minItems and maxItems bound the number of elements |
| SchemaKeywords.Texts | schema.go:409-436 | a pattern of at most 512 bytes compiles and matches; the format accepts |
| SchemaKeywords.Fieldwise | schema.go:517-531 | every required name is a field; a closed object without properties is empty |
| SchemaKeywords.Uniqueness | schema.go:595-606 | no two elements are equal |
| SchemaKeywords.Listed | schema.go:658-671 | the value is one of enum, or is const |
| SchemaKeywords.Types | schema.go:632-655 | each type name asks for its kind of JSON value, integer for a whole number in the int64 range |
| SchemaKeywords.TypeLists | schema.go:618-631 | a list of type names asks for one of them |
| SchemaKeywords.AllOfMeans | schema.go:304-312 | allOf asks for every alternative |
| SchemaKeywords.AnyOfMeans | schema.go:372-388 | anyOf for some alternative, or an empty list |
| SchemaKeywords.OneOfMeans | schema.go:372-388 | oneOf for exactly one, or an empty list |
| SchemaKeywords.NotMeans | schema.go:298-303 | not for the contrary |
| SchemaKeywords.BranchesMean | schema.go:284-296 | then if the condition holds, else otherwise |
| SchemaKeywords.ItemsMean | schema.go:607-615 | items for every element |
| SchemaKeywords.FieldsMean | schema.go:533-575 | each field meets the schema listed for it, every other field that of additionalProperties |
| SchemaSound.WithinNeverLimited | schema.go:139-163 | a schema whose references nest at most 32 deep has none refused, on any document |
| SchemaReading.PropertiesExact | schema.go:533-547 | on an object the standard reading of properties is the code's, and no present field whose schema is false |
| SchemaReading.ReadingsAgree | schema.go:112 | without a false property in reach the two readings are one |
| SchemaReading.FalseProperty | schema.go:535-539 | the schema with the one property k: false is accepted always, and met exactly by documents without a field k |
| SchemaRecursion.ListRejected | schema.go:255-265 | the linked-list schema is accepted exactly on documents without a next cell |
| SchemaRecursion.ListSat | schema.go:255-265 | although its meaning admits every document |
| SchemaRecursion.NotRefused | schema.go:147-163 | under not, a reference already being resolved passes on every value |
| SchemaRecursion.NotListAccepted | schema.go:298-303 | so the list schema with not before its inner reference is accepted on every document |
| SchemaRecursion.NotListSat | schema.go:298-303 | although its meaning admits only those whose next cell, if any, it does not admit |
| SchemaRecursion.NotListUnsound | schema.go:298-303 | the code accepts against the meaning on exactly the others, {"next": {}} among them |
| SchemaRecursion.NeverWithin | schema.go:139-163 | neither schema has a bound on nested references, so the agreement of verdict and meaning claims neither |
| SchemaValidator.SumAny | schema.go:533-547 | a cost summed over a map is the same for every order |
| SchemaValidator.SiblingsSame | schema.go:266-277 | keywords beside a reference are judged as if it were not there |
| SchemaValidator.ValidateString | schema.go:390-436 | no error exactly when length, pattern and format hold |
| SchemaValidator.ValidateNumber | schema.go:438-497 | no error exactly when the bounds hold, both exclusive forms included |
| SchemaValidator.ValidateFields | schema.go:501-531 | no error exactly when sizes and required fields hold |
| SchemaValidator.ValidateItems | schema.go:579-606 | no error exactly when sizes and uniqueness hold |
| SchemaValidator.SchemaValidation.PushRef | schema.go:147-163 | refused exactly on an exhausted budget, depth 32 or re-entry; otherwise pushed and counted |
| SchemaValidator.SchemaValidation.PopRef | schema.go:165-173 | the stack loses its top; the count of expansions stays |
| SchemaValidator.SchemaValidation.ValidateNode | schema.go:232-281 | ends for all documents and schemas; stack and depth restored; when the budget suffices or is not used up, the verdict and the expansions are those of the judgement, for every map order |
| SchemaValidator.SchemaValidation.ValidateRef | schema.go:249-278 | the same for a reference and its siblings |
| SchemaValidator.SchemaValidation.ValidateNodeKeywords | schema.go:283-370 | the same for the keywords, the type failure's early return included |
| SchemaValidator.SchemaValidation.MatchOneOfAnyOf | schema.go:372-388 | the same for the alternatives |
| SchemaValidator.SchemaValidation.ValidateObject | schema.go:500-576 | the same for an object, whatever the order of its maps |
| SchemaValidator.SchemaValidation.ValidateArray | schema.go:579-615 | the same for an array |
| SchemaValidator.ValidateSchema | schema.go:114-136 | when it returns with fewer than 256 references followed, or at most 256 are called for: the count is the judgement's for every map order, and no error exactly when the document satisfies the schema as coded, if no reference was refused or they nest at most 32 deep; and the standard meaning, if no schema under properties is false |
| Calculator.DerivationSound | tools/calculator.go:46-50 | what the parser reads is a derivation of the grammar |
| Calculator.DerivationComplete | tools/calculator.go:46-50 | every derivation of the input is the one it reads |
| Calculator.Unambiguous | tools/calculator.go:46-50 | an input has at most one derivation |
| Calculator.NumeralValue | tools/calculator.go:149-164 | digits stand for the number they write in base ten, and with a point for it and so many tenths, hundredths and so on |
| Calculator.NumeralOnly | tools/calculator.go:149-164 | nothing else is a numeral |
| Calculator.Parser.SkipSpaces | tools/calculator.go:56-60 | exactly the leading spaces are skipped |
| Calculator.Parser.ParseExpression | tools/calculator.go:62-87 | the left-associative value of the expression read, and the input left |
| Calculator.Parser.ParseTerm | tools/calculator.go:89-117 | the same for a term, failing on a zero divisor |
| Calculator.Parser.ParseFactor | tools/calculator.go:119-147 | the same for a factor |
| Calculator.Parser.ParseNumber | tools/calculator.go:149-164 | the numeral read, if it is one, with the value of `Calculator.NumeralValue` |
| Calculator.EvalExpr | tools/calculator.go:33-44 | a value exactly when some derivation of the input has one, and then that value |
| Calculator.PrintValue | tools/calculator.go:46-50 | a tree printed with the parentheses it needs has the tree's value, by the sums, differences, products and quotients of real numbers |
| Calculator.SpacesAre | tools/calculator.go:56-60 | the spaces are the six ASCII ones, 0x85 and 0xA0 |
| Calculator.PrintRoundTrip | tools/calculator.go:33-44 | a printed tree, however it is spaced, derives as that layout and no other, with the tree's value |
| Calculator.PrintOk | tools/calculator.go:46-50 | a printed tree is one the grammar derives |
| Calculator.ExpressionRespaced | tools/calculator.go:56-60 | spacing out a derivation keeps it one, and only spaces may be put in |
| Calculator.EvalPrinted | tools/calculator.go:33-44 | evaluating a printed tree, however spaced, gives its value, or an error if it has none |
| Calculator.EvalNatural | tools/calculator.go:33-44 | a natural number in decimal evaluates to itself |
| Calculator.EvalDecimal | tools/calculator.go:33-44 | whole digits, a point and decimals to the number they write |
| JsonDepth.Depth | toolcall.go:143-169 | the loop is the scan |
| JsonDepth.ScanNode | toolcall.go:143-169 | scanning a value restores the depth and has seen the value's own, despite escapes and brackets in strings |
| JsonDepth.RenderedDepth | toolcall.go:142-143 | any text of a value nests as deep as the value |
| JsonDepth.ScanMeasures | toolcall.go:142-169 | so the scanner returns a value's depth on any of its texts (RFC 8259, section 7) |
| JsonDepth.ArgsAccepted | toolcall.go:131-140 | arguments pass exactly when at most 1 MiB long and nested at most 100 deep |
| JsonDepth.ValidateToolArgs | toolcall.go:132-140 | the check the loop makes |
| ToolLoop.TracedTurn | toolcall.go:235-307 | a turn adds one trace and one tool message per call, in order |
| ToolLoop.AddTurn | toolcall.go:235-307 | and keeps the conversation well formed |
| ToolLoop.RunCall | toolcall.go:243-301 | the trace and the facts of one call, in all four cases |
| ToolLoop.RunTurn | toolcall.go:235-307 | messages, traces and facts after a reply with calls |
| ToolLoop.Exchange | toolcall.go:217-307 | each list sent is the one before, the reply and one answer per call: its tool's output up to 1 MiB, or what was wrong |
| ToolLoop.RunGathers | toolcall.go:289-301 | the facts of a run are those its successful calls returned, the first of each hash |
| ToolLoop.ExecuteTaskWithTools | toolcall.go:204-311 | every message list sent is the prompts and whole turns, each assistant message's calls answered in order with the same ids; one trace per call; and how each way of ending came about |

## Left out

- AsyncCrew.Crew.RunAsyncWaves: once the caller cancels the run, says only that an error means fail-fast; the error and the tables then depend on which workers had finished.
- AsyncCrew.Crew.RunWaveGroup: under fail-fast an aborted group's error is some member's own, not a particular one's: which comes first is up to the interleaving. So are the outputs and warnings an aborted group wrote on its own tasks, and those are not described.
- SchemaValidator.ValidateSchema: does not describe the verdict of a run that uses up its 256 references and would follow more; map order may then matter. Under a recursive schema a refused reference can err either way, so no meaning is claimed there in general.
- Calculator.EvalExpr: does not say which error a failing input gets; numbers are exact, so rounding and overflow of float64 are not modelled.
- Memory.Memory.Query: identifiers drawn for records saved without one are oracles; records kept through Save are outside the agreement with the file store.
- FileStore.FileStore.Put: a partial append, file permissions, the rename of meta.json and the count of corrupt lines are not modelled; an append succeeds or fails as a whole, and distinct scopes have distinct directories.
- TaskGroup.JoinedOutcome: the remember tool, which writes the store from inside a task, is assumed unused.
- Kickoff.KickoffAsync: covers the path taken when some task is Async; the serial executor, interpolation of inputs and crew-level guardrails are left out, and agents are resolved beforehand.
- The staged process: no plan is checked for its stages, so a Context edge inside a stage reads a running sibling.
- Hierarchical delegation, prompts, loggers, progress, events, traces of the recorder and timing: no effect on results.
- The text of validation errors and their paths; errors are kinds.
- The number type is exact; `integer` follows the amd64 conversion of floats outside the int64 range.
- Encoding and decoding JSON, regular expressions, formats, cosine similarity, case folding, clocks and random identifiers: oracles. Encoded log lines are assumed within the loader's line limit.
- StrictSchema's keyword walk, the structured repair loop, the agentic loop and the ReAct text markers.
- LLM providers, search providers, MCP, OAuth, HTTP, the path jail, redaction and file tools.
