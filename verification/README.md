# Verified models of the planner, the scheduler, the team pool, the event bus and the memory store

This project models the stateful cores of an agent runtime written in Rust and proves what holds
over their whole runs. Loops that change things in place are methods or classes, proved against
functions on values; the properties are lemmas about those functions, for every input, every run
and every interleaving.

| files | what they model |
|---|---|
| `Graphs`, `Plans`, `Dag` | the plan as a dependency graph: readiness, cycles, levels, transitive dependencies |
| `Scheduler`, `SchedulerRuns`, `SchedulerTermination`, `SchedulerRetries`, `ParallelExecutor` | the parallel batch loop; runs end in any outcome and in any order |
| `Decomposition`, `PlanOutcomes`, `PlanContents`, `PlanIntegration` | plans built from a planner's contract, what they hold, how their runs end, and when integration can run at all |
| `TeamPool`, `TeamOwnership`, `TeamFailures` | the shared pool of subagents under interleaved workers and settings changes |
| `RedisBus`, `BusDeadLetters`, `BusEarlyDeadLetters`, `BusFailures`, `BusWorker` | outbox, streams, consumer groups and dead-letter streams, with failures and crashes between any two commands |
| `BrainMemory`, `BrainHistory`, `BrainReplay`, `BrainReplayWalk` | the merge-or-supersede memory store and the replay of its batches |
| `ChunkText`, `Projection` | the greedy message chunker; the bounded list of recent events |
| `Text`, `Options` | the standard-library operations the code relies on |

## How to read it

- A **script** (`Scheduler.Script`) lists, batch by batch, the finished runs in completion order. A run
  ends as accepted, rejected, failed with an error, without a subagent (which uses up no attempt) or
  in a panic (a join error, which leaves its entry `Running`). `ExecutionPlan.ExecuteParallel` follows
  some script to its end; the theorems hold for every script.
- The dependency graph an execution works on is `Plans.LookupGraph`; `Graphs.Reach` is reachability in
  one or more steps; `Dag.ReachableDependencies` is proved to compute exactly it.
- The pool and the bus are state machines whose steps are the single locked methods and the single
  database or Redis commands. A step carries everything the environment decides: results, failures,
  whether a command took effect although its caller saw an error. A schedule is any list of steps.

- A method and the function that specifies it could be wrong in the same way. Therefore each main
  operation is also described in its own words, by a predicate that names none of those functions:
  `SchedulerRetries.IsVerdict`, `TeamPool.IsAcquisition`, `BusWorker.AreUnread` and `IsDealtWith`,
  `BrainMemory.IsSave`, `ChunkText.AreSpacedWords`, `Projection.IsLatest`, and those of `PlanContents`.

## What the proofs turned up

- The scheduler's loop stops on a fresh plan **if and only if** no later holder of a repeated id could be
  found ready (`LoopStopsIff`). Distinct ids suffice. Ids that differ only in case or punctuation
  collapse to one slug, and a second holder without dependencies makes the loop go on for ever
  (`RepeatedSlugNeverStops`, `CollidingSlugsNeverStop`); a plan's ids are distinct exactly when its slugs are distinct and none is `task-integrate` (`UniqueIffDistinctSlugs`).
- The filter that rejects a contract entry called `task-integrate` looks at the raw id. A raw
  "Task Integrate" passes it and becomes that slug (`ForgedIdPassesFilter`); then the integration step
  is never dispatched (`ForgedIntegrationNeverRuns`). When no seed is dropped, integration can be
  dispatched **if and only if** the slugs are distinct, none is the integration slug, and the
  dependencies have no cycle (`IntegrationCanRunIff`). Plans made by the heuristic splits always meet
  that condition (`HeuristicPlansIntegrate`).
- A persistent subagent whose run failed never becomes idle again while the team does not shrink
  below it (`FailedAgentIsNeverReused`). Shrinking the team below it and restoring it brings it back,
  except for the first agent, which is lost for good (`FailedAgentRecoversIff`). Runs that fail one
  after another take the whole team out (`FailuresAreReachable`).
- `INCR` is retried after a dropped connection. When each takes effect at most d times, max_retries / d
  failures, rounded up, are needed to dead-letter an event, and a schedule attains that for every
  max_retries and d (`DeadLetterBoundIsTight`). No event is dead-lettered early **if and only if** d is at
  most one or max_retries is (`NeverEarlyIff`).
- Replaying a batch adds no row **if and only if** every active row the batch left survives the batch's
  candidates of its key, met in order, and changes only stamps if and only if every such row comes back
  to what it was (`ReplayIff`). With one candidate per key that always holds (`ReplayIsHarmless`); two
  candidates of one turn with different contents for one new key supersede each other on every replay
  (`RivalsOnNewKeyGrow`). A late redelivery undoes a correction of a later turn **if and only if** the old
  candidate's confidence is within 0.05 of the correction's (`RedeliveryUndoesIff`).

## Model

| member | source | states |
|---|---|---|
| Dag.SelectReadyMembers | src/planner/dag.rs:7-31 | an id is listed as ready exactly when some holder of it is schedulable and all its dependencies are accepted or completed |
| Dag.ReadyIdsDoNotRepeat | src/planner/dag.rs:7-31 | no id is dispatched twice in a batch unless two of its holders are ready |
| Dag.ReadyMeaning | src/planner/dag.rs:12-25 | an entry is ready exactly when it is in a waiting state and for each of its dependencies the last holder of that id is accepted or completed |
| Dag.ReadyInPlanOrder | src/planner/dag.rs:7-31 | the ready list holds the ids of the entries that may run, in plan order, once for each of them |
| Dag.BuildGraph | src/planner/dag.rs:79-102 | the two loops over a mutable graph build the plan graph; dependencies on unknown ids add no edge |
| Dag.PlanGraphEdges | src/planner/dag.rs:79-102 | the plan graph has an edge exactly for each dependency on a known id, and every edge stays inside the plan |
| Dag.Toposort | src/planner/dag.rs:34-35 | a topological order of every vertex once, or none and then the graph has a cycle |
| Dag.TopologicalMeansAcyclic | src/planner/dag.rs:74-77 | a graph with a topological order has no cycle |
| Dag.HasCycle | src/planner/dag.rs:74-77 | true exactly when some id depends on itself in one or more steps |
| Dag.AssignLevels | src/planner/dag.rs:46-54 | every vertex gets the length of its longest dependency chain |
| Dag.LevelIsLongestChain | src/planner/dag.rs:47-52 | one more than the highest level among the dependencies is the longest chain's length |
| Dag.GroupByLevel | src/planner/dag.rs:56-61 | each group holds exactly the vertices of its level, each once |
| Dag.LevelsHaveNoGaps | src/planner/dag.rs:56-64 | below every level that occurs each smaller one occurs too |
| Dag.SortedLevels | src/planner/dag.rs:63-72 | after sorting, vector index and level agree, and every level is in string order |
| Dag.TopologicalLevels | src/planner/dag.rs:33-72 | empty exactly when the plan is empty or cyclic; otherwise level k is exactly the ids whose longest dependency chain has k edges, and every id is listed |
| Dag.LevellingPartitions | src/planner/dag.rs:33-72 | no id is in two levels |
| Dag.DependenciesComeEarlier | src/planner/dag.rs:33-72 | every dependency is in a strictly earlier level |
| Dag.NewlySeen | src/planner/dag.rs:117-122 | one turn of the search adds exactly the unvisited dependencies, each once |
| Dag.ReachableDependencies | src/planner/dag.rs:104-127 | terminates on every graph and returns exactly the ids reachable in one or more dependency steps, sorted, without repeats |
| Dag.GraphsAgree | src/planner/dag.rs:79-127 | for distinct ids the graph of the levels and the graph of the search differ only in edges to unknown ids |
| Dag.SameCycles | src/planner/dag.rs:74-127 | for distinct ids both graphs have the same cycles |
| Plans.ById | src/planner/dag.rs:8-11 | collecting into a hash map keeps one holder of every id |
| Plans.ByIdOfLast | src/planner/dag.rs:105-108 | and that is the last one |
| Plans.FirstIndex | src/execution/scheduler.rs:69 | the position lookup finds the first holder of an id |
| Scheduler.StartAllAt | src/execution/scheduler.rs:67-74 | dispatching marks exactly the first holders of the ready ids as running |
| Scheduler.FoldAllAt | src/execution/scheduler.rs:98-113 | folding results without a repeated id settles each first holder once, by its own result, and touches nothing else |
| SchedulerRuns.FoldedAt | src/execution/scheduler.rs:67-113 | a ready entry ends its batch as its own run decides (retry, fail, accept, stay running); every other entry is untouched |
| SchedulerRuns.RunKeepsInvariant | src/execution/scheduler.rs:43-133 | in every reachable state whatever is running, accepted or failed has only accepted, unambiguous and cycle-free transitive dependencies |
| SchedulerRuns.AcceptedForever | src/execution/scheduler.rs:98-132 | Accepted is never left while the loop runs |
| SchedulerRuns.ReliableForever | src/execution/scheduler.rs:44-132 | an accepted dependency stays accepted to the end of the run |
| SchedulerRuns.ReadyTaskIsSupported | src/execution/scheduler.rs:44-132 | from its dispatch on, everything an entry needs is accepted and off every cycle, repeated ids included |
| SchedulerRuns.DependencySafety | src/execution/scheduler.rs:44-132 | once an id has been dispatched, its whole set of reachable dependencies is accepted, from then to the end |
| SchedulerRuns.WaitingFindsHopeless | src/execution/scheduler.rs:44-47 | when nothing is ready, following unsatisfied dependencies ends in one that can never be satisfied |
| SchedulerRuns.ExitIsComplete | src/execution/scheduler.rs:43-133 | at the end an entry still waits if and only if it needs something missing, ambiguous, cyclic, failed or lost to a join error |
| SchedulerRuns.AcyclicPlanFinishes | src/execution/scheduler.rs:43-133 | in an acyclic plan without outside dependencies every entry ends accepted, failed, left running, or behind one that failed or was left running |
| SchedulerRuns.CyclicTaskNeverDispatched | src/execution/scheduler.rs:43-74 | an entry on or behind a cycle is never ready |
| SchedulerRuns.CompletionOrderIsIrrelevant | src/execution/scheduler.rs:98-132 | the order in which a batch's runs finish changes neither the plan nor the result map |
| SchedulerRuns.PromotionIsInvisible | src/execution/scheduler.rs:115-132 | promotion to Ready never changes what is ready next |
| SchedulerTermination.BatchSpends | src/execution/scheduler.rs:98-113 | a dispatch costs its entry one unit of a budget that nothing ever refills |
| SchedulerTermination.BatchBound | src/execution/scheduler.rs:43-133 | at most n * (max_review_loops + 1) batches, whatever the runs do |
| SchedulerTermination.DispatchBound | src/execution/scheduler.rs:100-110 | at most max_review_loops + 1 dispatches of an entry, at most max_retries + 1 attempts, although a run without a subagent uses none |
| SchedulerTermination.DuplicateRunsForever | src/execution/scheduler.rs:69-74 | a startable later holder of an id gives runs of every length |
| SchedulerTermination.LoopStopsIff | src/execution/scheduler.rs:43-133 | the loop stops on all runs of a fresh plan if and only if no later holder of an id can become ready |
| SchedulerTermination.RepeatedIdNeverStops | src/execution/scheduler.rs:69-100 | two independent entries under one id keep the loop going for ever |
| SchedulerRetries.RunReport | src/execution/dispatcher.rs:26-280 | only a review acceptance accepts; a run without a subagent reports the attempts it was given, any other finished run one more, up to the largest 32-bit number |
| SchedulerRetries.BatchVerdict | src/execution/scheduler.rs:98-132 | after its batch a dispatched entry is accepted, left running by a join error, ready again with one more review loop if and only if attempts <= max_retries and review_loops < max_review_loops, or else failed |
| SchedulerRetries.BatchPromotes | src/execution/scheduler.rs:115-132 | any other entry changes in one way only: waiting, it becomes ready exactly when its dependencies are satisfied after the batch |
| SchedulerRetries.RetriesAreUsedUp | src/execution/scheduler.rs:43-133 | an entry without dependencies whose runs are all rejected is dispatched exactly min(max_retries, max_review_loops) + 1 times and ends failed with that many attempts; without a subagent, exactly max_review_loops + 1 times and with none |
| SchedulerRetries.UniformRunEnds | src/execution/scheduler.rs:43-133 | for every outcome there is a run that ends and in which every run ends in that way |
| ParallelExecutor.ReadyClones | src/execution/dispatcher.rs:26-41 | each dispatched run carries its id and the attempts of the first holder, which a run without a subagent reports unchanged |
| ParallelExecutor.ExecutionPlan.StartReady | src/execution/scheduler.rs:67-96 | the dispatch loop, in place |
| ParallelExecutor.ExecutionPlan.ApplyResult | src/execution/scheduler.rs:100-110 | the retry rule, in place; what it makes of an entry is `BatchVerdict` |
| ParallelExecutor.ExecutionPlan.JoinAll | src/execution/scheduler.rs:98-113 | every dispatched run is joined once, in any order and with any outcome, and folded into plan and results |
| ParallelExecutor.ExecutionPlan.PromoteReady | src/execution/scheduler.rs:115-132 | promotion reads the snapshot taken before the loop, not the entries it has already changed |
| ParallelExecutor.ExecutionPlan.MarkIntegrated | src/execution/scheduler.rs:135-139 | exactly the accepted entries with the integration suffix become completed |
| ParallelExecutor.ExecutionPlan.ExecuteParallel | src/execution/scheduler.rs:19-142 | the loop terminates, follows a script to its end, and returns that script's plan and results |
| ParallelExecutor.BatchExtendsScript | src/execution/scheduler.rs:43-133 | one turn of the loop extends the script and lowers the budget |
| Decomposition.CleanedIsSlug | src/planner/decomposition.rs:890-903 | a cleaned id is empty or consists of lower-case letters, digits and inner dashes |
| Decomposition.SanitizingIsIdempotent | src/planner/decomposition.rs:890-914 | sanitising always yields a slug, is idempotent, and agrees with the sanitising of dependencies |
| Decomposition.KeptDependenciesAreValid | src/planner/decomposition.rs:389-395 | exactly the cleaned, scoped dependencies that name some seed other than the owner survive |
| Decomposition.BuildWorkTasks | src/planner/decomposition.rs:354-438 | the first work_cap seeds become entries with scoped slugs and surviving dependencies |
| Decomposition.DepthTable | src/planner/decomposition.rs:502-510 | vector index plus one is one more than the longest dependency chain |
| Decomposition.SetDepths | src/planner/decomposition.rs:511-522 | depths are capped and first states follow from the dependencies |
| Decomposition.MaterializePlan | src/planner/decomposition.rs:330-528 | the finished plan is the seeds' entries and an integration entry depending on all of them, each with its capped chain depth (1 throughout a cyclic plan); the groups are a levelling of it, none exactly when it is cyclic |
| PlanOutcomes.BuildPlanFromContract | src/planner/decomposition.rs:88-150 | the plan is the materialised draft of the first usable seeds of the contract, or of the fallback; it has at most max(plan_max_tasks, 2) entries, none started, its dependencies resolve, and its execution stops when the slugs are distinct and none is the integration slug |
| PlanOutcomes.ChosenSeeds | src/planner/decomposition.rs:105-135 | with a usable entry in the contract every chosen seed is a usable entry and the cap drops none; without one the fallback is used |
| PlanOutcomes.UniqueIffDistinctSlugs | src/planner/decomposition.rs:354-363 | a plan's ids are distinct exactly when its slugs are and none is the integration slug |
| PlanOutcomes.PlanIsSmallAndFresh | src/planner/decomposition.rs:347-500 | at most max(plan_max_tasks, 2) entries, none started |
| PlanOutcomes.DependenciesResolve | src/planner/decomposition.rs:363-444 | every dependency is an id of the plan or of a seed that the cap dropped |
| PlanOutcomes.UncappedPlanIsClosed | src/planner/decomposition.rs:363-444 | when the cap drops no seed every dependency is an id of the plan |
| PlanOutcomes.SuffixMeansIntegrationSlug | src/execution/scheduler.rs:136 | a scoped slug ends in the integration suffix exactly when it is the integration slug |
| PlanOutcomes.IntegrationCompletes | src/execution/scheduler.rs:135-139 | for distinct slugs other than the integration slug, integration ends completed if and only if it and every other entry were accepted; nothing else is ever completed |
| PlanOutcomes.RepeatedSlugNeverStops | src/planner/decomposition.rs:354-362 | a second seed with a slug already in use and no dependency left makes the scheduler's loop unbounded |
| PlanOutcomes.CollidingSlugsNeverStop | src/planner/decomposition.rs:890-903 | two raw ids that differ in case are such a pair, and the contract filter lets both through |
| PlanContents.CleanedCuts | src/planner/decomposition.rs:890-903 | a cleaned id is the trimmed text with a dash for every other character, without the dashes at either end, in lower case |
| PlanContents.IntegrationIdMeaning | src/planner/decomposition.rs:883-888 | an id counts as the integration task exactly when it is its slug or ends in a colon and that slug |
| PlanContents.UsableMeaning | src/planner/decomposition.rs:105-110 | an entry is usable exactly when its description is not blank and its id does not name the integration task |
| PlanContents.ChosenInOrder | src/planner/decomposition.rs:105-123 | the chosen seeds are the first usable entries in contract order, all of them up to max(plan_max_tasks - 1, 1) |
| PlanContents.DependenciesInOrder | src/planner/decomposition.rs:389-395 | the surviving dependencies keep their order, repeated ones included |
| PlanContents.PlanInWords | src/planner/decomposition.rs:347-500 | a plan has min(number of seeds, max(plan_max_tasks - 1, 1)) + 1 entries: the seeds' in order under their slugs, then the integration entry depending on all of them in order; an entry is ready at first exactly when it depends on nothing |
| PlanIntegration.ShadowWaits | src/execution/scheduler.rs:69-100 | no run ever takes a later holder of an id beyond waiting |
| PlanIntegration.RepeatedIdNeverSatisfied | src/planner/dag.rs:8-25 | a dependency on a repeated id is never satisfied |
| PlanIntegration.ForgedIdPassesFilter | src/planner/decomposition.rs:107-110 | a raw "Task Integrate" is usable by the filter's own test and its slug is the integration slug |
| PlanIntegration.ForgedIntegrationNeverRuns | src/planner/decomposition.rs:440-478 | a seed whose slug is the integration slug keeps integration waiting for ever, in every run of every such plan |
| PlanIntegration.ForgedContractNeverIntegrates | src/planner/decomposition.rs:105-123 | so a contract that brings such an entry into the plan never gets its results integrated |
| PlanIntegration.AcceptedWasReady | src/execution/scheduler.rs:44-113 | whatever a run has accepted was ready before one of its batches |
| PlanIntegration.AcyclicPlanCanRun | src/execution/scheduler.rs:43-133 | in an acyclic, closed plan with distinct ids some run makes any given entry ready |
| PlanIntegration.IntegrationCanRunIff | src/planner/decomposition.rs:354-478 | some run makes integration ready if and only if the slugs are distinct, none is the integration slug, and the plan has no cycle |
| PlanIntegration.HeuristicPlansIntegrate | src/planner/decomposition.rs:44-67 | a plan of numbered seeds without dependencies always stops and can always integrate |
| TeamPool.TeamManager.constructor | src/team/manager.rs:430-464 | persistent agents 1 to team_size, idle, with roles dealt round-robin |
| TeamPool.TeamManager.CountEphemeral | src/team/manager.rs:205 | the number of ephemeral agents in the pool |
| TeamPool.TeamManager.AcquireForTask | src/team/manager.rs:182-279 | in place, and in its own words: the first idle agent whose role is the wanted one up to ASCII case, or the first idle one when none is wanted; without one a spawn in the wanted role exactly when spawning is allowed and the ephemeral count is below both bounds; else nothing |
| TeamPool.AcquireMeaning | src/team/manager.rs:182-279 | the same of the pool as a value |
| TeamPool.FirstWanted | src/team/manager.rs:186-202 | one of the cases always applies, and only one |
| TeamPool.RolesAreDealt | src/team/manager.rs:375-377 | agent i up to the roleset's length gets its i-th role, and the roles repeat from there |
| TeamPool.TeamManager.MarkRunning | src/team/manager.rs:281-291 | in place: the first agent with the id runs |
| TeamPool.TeamManager.Release | src/team/manager.rs:304-342 | in place: an ephemeral agent is removed, a persistent one idle or failed without a current entry |
| TeamPool.TeamManager.ApplyRuntimeSettings | src/team/manager.rs:155-180 | valid settings are installed and the pool is reconciled with them; rejected ones change neither settings nor pool |
| TeamPool.TeamManager.ReconcilePersistentPool | src/team/manager.rs:372-427 | the three loops provide, retain and sort, in place |
| TeamOwnership.AcquireEffect | src/team/manager.rs:182-279 | an acquisition changes one entry of the id table: an idle agent becomes assigned, or a new ephemeral id within the capacity is added |
| TeamOwnership.MarkEffect | src/team/manager.rs:281-291 | marking sets exactly the named agent to running |
| TeamOwnership.ReleaseEffect | src/team/manager.rs:304-342 | a release removes or frees exactly the named agent |
| TeamOwnership.ReconcileEffect | src/team/manager.rs:372-427 | the exact new id table of a reconciliation, in id order |
| TeamOwnership.StepKeepsInvariant | src/execution/dispatcher.rs:26-234 | every step of every worker and every settings change keeps the ownership invariant |
| TeamOwnership.ExclusiveOwnership | src/execution/dispatcher.rs:26-234 | over every interleaving pool ids are distinct; each worker's agent is in the pool, assigned or running with that worker's entry; no two workers share one; agents with a current entry are exactly the held ones |
| TeamOwnership.CountIsCardinality | src/team/manager.rs:205 | the count is the number of different ephemeral ids |
| TeamOwnership.EphemeralsAreHeldBySpawners | src/team/manager.rs:203-231 | the ephemeral agents are exactly those held by the workers that spawned them |
| TeamOwnership.SpawnTakesNextId | src/team/manager.rs:247-276 | a spawn takes the counter's value and leaves the count within the capacity it read |
| TeamOwnership.EphemeralIdsAreNeverReused | src/team/manager.rs:210-213 | no two spawns of a run get the same id |
| TeamOwnership.OnlySpawnsAddEphemerals | src/team/manager.rs:304-323 | no other step raises the count |
| TeamOwnership.EphemeralBound | src/team/manager.rs:204-207 | under fixed settings the count never exceeds max_ephemeral_subagents |
| TeamOwnership.ReconcileIsRight | src/team/manager.rs:372-427 | from every reachable pool: one persistent agent per number in range, no busy or ephemeral agent touched, free agents in range in their role, out-of-range ones only while busy |
| TeamFailures.FailedAgentIsNeverReused | src/team/manager.rs:325-330 | a failed persistent agent is never idle or acquired again while no settings shrink the team below it |
| TeamFailures.FirstAgentIsLost | src/team/manager.rs:325-330 | once failed, the first agent stays failed under every schedule |
| TeamFailures.ShrinkingRevives | src/team/manager.rs:417-424 | any other failed agent is dropped by shrinking the team below it and created anew, idle, by restoring the team |
| TeamFailures.FailedAgentRecoversIff | src/team/manager.rs:325-424 | a failed agent in the team can ever be idle again if and only if it is not the first |
| TeamFailures.FailuresAreReachable | src/team/manager.rs:237-245 | 3 n steps from the start the first n agents of the team have failed and nobody holds any |
| TeamFailures.OneFailureLosesFirstAgent | src/execution/dispatcher.rs:26-234 | one failing run loses the first agent, whatever happens later |
| RedisBus.StepGrows | src/telemetry/redis_bus.rs:49-418 | no step takes back an entry, a publication or a handling |
| RedisBus.StepKeepsInvariant | src/telemetry/redis_bus.rs:49-418 | every command of every worker, failing or not, and every crash keeps the bus invariant |
| RedisBus.RunKeepsInvariant | src/telemetry/redis_bus.rs:49-418 | so does every schedule; published rows have an entry, trimmed entries were acknowledged |
| RedisBus.NothingIsLost | src/telemetry/redis_bus.rs:49-92 | an enqueued event is unpublished, or has an entry that is undelivered, pending, handled by its group or copied to the dead-letter stream |
| RedisBus.AcknowledgedEntriesAreSettled | src/telemetry/redis_bus.rs:260-286 | every acknowledged entry was handled or copied |
| BusDeadLetters.RunKeepsAccounted | src/telemetry/redis_bus.rs:364-384 | counters never run ahead of counted failures, and workers that have yet to count are accounted for |
| BusDeadLetters.DeadLettersAreDeserved | src/telemetry/redis_bus.rs:384-402 | an event is in the dead-letter stream only after at least one failure and, with each INCR taking effect at most d times, max_retries / d failures |
| BusEarlyDeadLetters.Rounds | src/telemetry/redis_bus.rs:364-384 | a failing entry can be claimed and fail again as long as its counter stays below max_retries |
| BusEarlyDeadLetters.DeadLetterBoundIsTight | src/telemetry/redis_bus.rs:384-402 | for every max_retries and d some schedule dead-letters an event after exactly max_retries / d failures, rounded up |
| BusEarlyDeadLetters.DoubleCountingDeadLettersEarly | src/storage/cache.rs:497-532 | with every INCR taking effect twice, (max_retries + 1) / 2 failures suffice, for every max_retries from 2 on |
| BusEarlyDeadLetters.NeverEarlyIff | src/storage/cache.rs:497-532 | every dead-lettered event has failed max_retries times if and only if an INCR takes effect at most once or max_retries is at most 1 |
| BusDeadLetters.CountersStayLow | src/storage/cache.rs:497-553 | in runs without crashes and failing failure-handling commands a counter at max_retries belongs to a worker about to clear it |
| BusFailures.RunRemembers | src/telemetry/redis_bus.rs:364-409 | in such runs every failure of an event that is neither handled nor copied is on its counter or some worker has yet to count it |
| BusFailures.FailingEventIsCopied | src/telemetry/redis_bus.rs:384-402 | so an event neither handled nor copied has fewer than max_retries counted failures, or a worker is about to copy it |
| BusFailures.QuietBusHasCopied | src/telemetry/redis_bus.rs:384-402 | between ticks an event that has failed max_retries times has been handled or copied |
| BusWorker.Worker.PublisherTick | src/telemetry/redis_bus.rs:49-92 | one tick, in place: issues only its own enabled commands, fails only when one of them reports an error and stops there, and on success every fetched row was published or had its attempt recorded |
| BusWorker.Worker.PublishOne | src/telemetry/redis_bus.rs:59-90 | one row: added and marked, or its failure recorded; no other row changes |
| BusWorker.Worker.ConsumerTick | src/telemetry/redis_bus.rs:245-289 | one tick, in place: the stale entries, or without any exactly the unread ones in order, with the cursor moved to where the read went; fails only when a command reports an error and stops there; on success every entry was acknowledged or its event failed once more |
| BusWorker.NothingIsLeftUnread | src/telemetry/redis_bus.rs:245-289 | after a successful tick that found nothing stale and read to the end of the log, no earlier entry of the stream is undelivered, and each one read was handled, dead-lettered, or has one more failure |
| BusWorker.Worker.FetchEntries | src/storage/cache.rs:325-418 | the claimed entries, or the undelivered ones up to where the read goes |
| BusWorker.Worker.ConsumeOne | src/telemetry/redis_bus.rs:261-285 | one entry is acknowledged or its failure recorded, or the tick ends |
| BusWorker.Worker.Finish | src/telemetry/redis_bus.rs:262-273 | clearing may fail unnoticed; marking or acknowledging may not |
| BusWorker.Worker.HandleConsumerFailure | src/telemetry/redis_bus.rs:364-418 | an entry that stays pending has a counter below max_retries and no copy was made; one that is acknowledged has its copy in the dead-letter stream |
| BrainMemory.FindActive | src/storage/postgres.rs:1515-1536 | the newest active row with exactly the key, absent user and conversation included |
| BrainMemory.BrainStore.Insert | src/storage/postgres.rs:1600-1648 | in place: a new active row under the next id |
| BrainMemory.BrainStore.SaveOrMerge | src/storage/postgres.rs:1511-1598 | in place, and in its own words: insert, merge, supersede or leave alone |
| BrainMemory.SaveMeaning | src/storage/postgres.rs:1511-1598 | a candidate without active row is inserted as it is; one with the same words is merged; another one retires the row and is inserted if it overrides it, and is dropped otherwise; no other row changes |
| BrainMemory.MergedIsMerge | src/memory/brain.rs:99-111 | a merged row has the candidate's subject and four fields to the letter, each of the seven provenance fields from the candidate where present, and the larger confidence |
| BrainMemory.NormalizedSame | src/memory/brain.rs:270-281 | two fields count as the same exactly when they have the same words up to ASCII case |
| BrainMemory.SearchTextParts | src/memory/brain.rs:223-247 | the search text is the trimmed subject and content, and each further part that is not blank, separated by single spaces |
| BrainMemory.BrainStore.SaveBatch | src/storage/postgres.rs:330-351 | all candidates in order, or no row changes |
| BrainHistory.SaveKeepsInvariant | src/storage/postgres.rs:1511-1598 | one candidate keeps the store invariant |
| BrainHistory.HistoryKeepsInvariant | src/storage/postgres.rs:330-351 | after every sequence of committed and aborted batches a key with a row has exactly one active row, and every superseded row names a later one of its key |
| BrainHistory.SuccessorIsLater | src/storage/postgres.rs:1583-1594 | superseded_by is a strictly larger id with the same key |
| BrainHistory.ChainEndsAtActiveRow | src/storage/postgres.rs:1583-1594 | following superseded_by ends at the key's one active row, the one a lookup finds |
| BrainHistory.BatchEvolves | src/storage/postgres.rs:1543-1595 | no row is deleted; key, kind, creation and normalised content never change, confidence never falls, a superseded row is never touched again |
| BrainHistory.SaveOutcome | src/memory/brain.rs:249-261 | after a save the active row says what the candidate says, unless a row of a later turn and clearly higher confidence resisted unchanged |
| BrainReplay.MergeIsIdempotent | src/memory/brain.rs:99-111 | merging the same candidate twice is merging it once |
| BrainReplay.SaveSettles | src/storage/postgres.rs:1543-1597 | after a save the same candidate would change nothing but the stamp |
| BrainReplay.OtherKeyUntouched | src/storage/postgres.rs:1522-1525 | a save leaves lookup and active row of every other key alone |
| BrainReplay.ReplayIsHarmless | src/storage/postgres.rs:330-351 | re-applying a batch with one candidate per key adds no row, draws no id and changes nothing but updated_at |
| BrainReplayWalk.BatchWalks | src/storage/postgres.rs:1538-1597 | a batch takes the active row of a key through the candidates of that key, one after another, as long as none supersedes it |
| BrainReplayWalk.AddsNoRowIff | src/storage/postgres.rs:1583-1595 | over keys that all have an active row, a batch adds no row if and only if every such row survives its walk |
| BrainReplayWalk.OnlyRestampsIff | src/storage/postgres.rs:1543-1597 | and changes nothing but updated_at if and only if every such row returns to what it was |
| BrainReplayWalk.ReplayIff | src/storage/postgres.rs:330-351 | both conditions for the replay of any batch, whatever its keys |
| BrainReplayWalk.RedeliveryIff | src/storage/postgres.rs:330-351 | both conditions for a batch of the history that comes once more, whatever was saved in between |
| BrainReplayWalk.StaleTakesOverIff | src/memory/brain.rs:249-261 | a candidate takes over a row with other content exactly when it has no older turn or is within 0.05 of its confidence |
| BrainReplayWalk.RedeliveryUndoesIff | src/storage/postgres.rs:1583-1594 | after a memory and its correction of a later turn, a second delivery of the memory undoes the correction exactly when it is within 0.05 of its confidence |
| BrainReplayWalk.RivalsGrowIff | src/memory/brain.rs:249-261 | a batch of two candidates of one turn with different contents for one key grows on replay if and only if the second one made it into the active row |
| BrainReplayWalk.RivalsOnNewKeyGrow | src/storage/postgres.rs:1583-1594 | on a new key every application of such a batch adds two rows |
| BrainReplayWalk.ReplayWithRepeatedKeyGrows | src/storage/postgres.rs:1583-1594 | a concrete pair on an empty store |
| ChunkText.Chunk | src/channel/telegram.rs:190-209 | the loop over a mutable buffer computes the greedy cut; a short text is returned as it is, and each chunk of a longer one is its own words joined by single spaces |
| ChunkText.ChunksMeaning | src/channel/telegram.rs:190-209 | the same of the cut as a value: the words of all chunks together are those of the text |
| ChunkText.WordsArePreserved | src/channel/telegram.rs:195-207 | splitting the chunks gives back exactly the words of the text, in order |
| ChunkText.ChunkSizes | src/channel/telegram.rs:196-202 | a chunk of a long text is shorter than the limit or is a single word, and never blank |
| ChunkText.PackedIsSmallest | src/channel/telegram.rs:196-202 | the greedy cut needs no more chunks than any cut of the same words, even with more words in front |
| ChunkText.FewestChunks | src/channel/telegram.rs:190-209 | the chunks are themselves a cut by the fit rule, and no cut by that rule has fewer |
| Text.SplitJoin | src/channel/telegram.rs:195-206 | splitting words joined by single spaces gives the words back |
| Text.TrimCuts | src/memory/brain.rs:230-245 | trimming cuts off whitespace at either end and leaves none there |
| Projection.Retain | src/storage/store.rs:793 | keeps exactly the events the new one does not drop, in order |
| Projection.RuntimeEvents.Update | src/storage/store.rs:781-800 | in place: remove the id, insert in front, truncate; at most max_items are stored |
| Projection.RuntimeEvents.Read | src/storage/store.rs:803-815 | nothing before the first update, then a prefix, of as many events as there are up to the limit |
| Projection.RuntimeEvents.Deliver | src/telemetry/redis_bus.rs:159-169 | after any deliveries the stored list shows the latest ones that no later one overrides, latest first, at most max_items and as many as there are |
| Projection.RecentIsDistinct | src/storage/store.rs:792-794 | no id is shown twice |
| Projection.BoundedRefinesRecent | src/storage/store.rs:786-797 | the bounded list is always the front of the unbounded move-to-front list |
| Projection.RecentIsSurviving | src/storage/store.rs:792-794 | the unbounded list is exactly the deliveries that no later one overrides, latest first |
| Projection.LatestAreShown | src/storage/store.rs:786-797 | position k of the bounded list is the k-th latest delivery whose id no later one carries |

## Left out

- Dag: other fields of plan entries (titles, criteria, routes, models, estimates) and the isolated graph nodes that repeated ids leave behind, which no result shows; the library's topological sort is replaced by a verified one.
- Scheduler: the semaphore, the parallel limits, published events, prompts, model calls, review scores and artifacts; a run is any outcome.
- Decomposition: the choice of a heuristic split and its texts; what the splits yield is a parameter, taken to stay within the work cap and, in `HeuristicPlansIntegrate`, to be numbered seeds without dependencies; the conversion of the depth limit to 32 bits; role and route inference.
- TeamPool: blueprints beyond the role (model routes, skills), heartbeats, retry counts, last scores and errors, `force_idle`, loading profiles; the capacity the resource monitor suggests is a parameter of each acquisition; an acquisition reads the settings once, whereas the code reads the permission to spawn and the maximum separately, so that they may come from different settings when these change in between; specialisations, which the normalisation of the settings clears, so that a blueprint's role is the roleset entry.
- TeamOwnership: a worker that panics is one that takes no further step and keeps its agent; installing settings and reconciling are two separate atomic steps there, and one call of `TeamManager.ApplyRuntimeSettings`.
- RedisBus: delivery is at least once and nothing more is claimed; the result of marking an event as processed is ignored by the code, so the mark is not part of the state. Hypotheses: trimming removes acknowledged entries only, producers never enqueue straight to a dead-letter stream, keys do not expire. An `INCR` and its retry are one step, although another worker's `INCR` may fall between them. Entries that cannot be decoded, the choice and order of fetched rows, and batch sizes are left open or out.
- BusDeadLetters.DeadLettersAreDeserved: counts handling failures of an event by a group over the whole run, not since the counter was last cleared.
- BrainMemory: transactions run one after another (no uniqueness constraint guards against concurrent ones); deletion of a referenced row, foreign keys, search and ranking are left out; confidence is a real number, so rounding and NaN are too.
- ChunkText: the source adds lengths in machine words; wrap-around at the top of their range is not modelled.
- Projection: updates run one after another and the stored list does not expire.
- Telegram, HTTP, the dashboard, configuration, file watching, metrics and the job queue: plumbing.
- Keyword routing and the other planning heuristics: long lists settled by reading one branch.
