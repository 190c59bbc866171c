# Proofs about the stage engine of the agent platform

The platform turns external events into tasks and runs each task as a graph of stages, with people approving the
output of some of them. This project models the parts of it that keep state and decide what happens next, and proves
what they promise over every input and every run.

| file | models |
|---|---|
| `StageGraph.dfy` | `StageGraph`: three-colour cycle search, post-order listing, ready sets, failure redirects |
| `LinearMode.dfy` | building a graph from a template, the older grouping by `order`, and when the two agree |
| `GraphScheduler.dfy`, `SchedulerTheorems.dfy`, `RunLength.dfy`, `Resuming.dfy` | the graph loop of the engine, what holds over its runs, how long they are, and what resumes, redirects and exits do |
| `TaskLogPipeline.dfy`, `LogOrder.dfy`, `LogStops.dfy`, `LogNumbers.dfy`, `LogHistory.dfy`, `LogOrigins.dfy` | the queue, workers and batches between the engine and the log table; the order of operations, stopping, event numbers in one process and over all, and what becomes of each emission |
| `StageEvents.dfy`, `StageHistory.dfy` | the tracker that opens and closes log rows while a stage runs, its output summaries, and what it sends for a history of callbacks |
| `HumanGates.dfy`, `GateCalls.dfy` | opening, reviewing and waiting at gates, with re-execution on rejection and revision; which poll, verdict and output count |
| `Sandboxes.dfy` | BoxLite permits and boxes under the manager's cache of role sandboxes |
| `Triggers.dfy`, `TriggerDecisions.dfy`, `Filters.dfy`, `FilterLeaves.dfy`, `Flatten.dfy` | trigger rules and which of them creates a task, their filters, the dry run, and dotted paths into payloads |
| `Prelude.dfy` | insertion-ordered dictionaries, sorting of keys, small facts about sequences |

Objects that the program changes in place are classes whose methods loop and assign as the program does. Each method
is proved equal to one step of a specification function over the object's whole state (`Round`, `Step`, `Handle`,
`Process`), and the theorems speak about that function over whole runs. In the log pipeline a suspension point
ends a step. Some of these points do not suspend in every case (a free lock, a waiting operation), so the runs of the
model include all interleavings of callers and workers in the program and may include more; a wait at a gate admits reviews and the passing
of time at each poll; the other protocols run one call after the other. The outside world enters as arguments: stage outcomes,
skip conditions and gate answers of a round (`RoundInput`), the clock, when a batch commits, how a micro-VM starts,
and fresh row ids. Exceptions are outcomes (`Raised`, `Cancelled`, `None` of an `Option`).

## What the proofs found

Where the code and its documentation or purpose differ the model follows the code.

- *"identical to current linear behavior"* (`platform/app/worker/graph.py:7-8`): a stage without `order` ranks 0 in the
  graph and by its position in linear mode, and a name under two orders makes the graph cyclic. The two modes agree
  exactly when no name has two orders and both ranks order the stages alike (`ModesAgreeIffSameRanking`,
  `InferredGraphIsAcyclicExactly`); without any orders they
  differ as soon as there are two stages (`MissingOrdersDisagree`).
- A stage whose `depends_on` is null makes validation raise as soon as another stage names a dependency
  (`TemplateRaisesExactly`). Since templates are stored with null for an absent list
  (`platform/app/schemas/template.py:27`, `platform/app/services/template_service.py:118`), no such template with
  explicit dependencies is ever run unless it spells out an empty list (`NullRootsNeverValidate`).
- A run is reported as exceeding its iteration limit also when it finishes in the last iteration: exactly under the
  caps up to its number of rounds, though everything is done one round earlier (`FinishingRunIsReportedExactly`,
  `DoneRunsAreReported`). For a run in which nothing goes wrong the rounds are those of the longest dependency chain
  plus one, so with three or more iterations a stage only the empty graph is reported, which takes a template emptied
  or made undecodable after its stage rows were created (`SmoothRunTakesLongestChain`, `SmoothRunIsReportedExactly`).
- With every stage done a run is called "stuck" exactly when a failed stage was skipped afterwards
  (`StuckWithEverythingDone`; `FailedThenSkippedIsStuck` is a run that gets there).
- A redirect offers its target again whatever its number of executions (`RedirectReopensTarget`).
- A failed stage without executions left that nothing redirects to is never repaired (`ExhaustedFailureIsFinal`).
- Gates are consulted only for a stage that was ready alone (`OnlyLoneStagesMeetTheirGate`).
- The log pipeline keeps the order of acceptance exactly as long as no batch is flushed while another worker holds an
  older operation (`InOrderExactly`). One worker is enough for that; starting a stopping pipeline adds a second, and an
  update can then be lost (`OneWorkerNeverOvertakes`, `SecondWorkerReorders`).
- A stopped pipeline strands an operation exactly when a call that was still under way puts it on the queue after the
  last worker left; that can happen from exactly the states with such a call (`RunStrandsExactly`, `CanStrandExactly`).
- A row stays running for ever exactly when its key is reused while it is open, which the ids of turns and tool calls
  allow (`FinalizedExactlyOnce`).
- A restart forgets the numbers whose rows have not landed: a number that was handed out can be handed out again
  exactly when no row of its task with that number or a higher one has landed (`CanRepeatExactly`).
- Without a recorded completion time a visit passes on an approval older than the completion exactly when no gate of
  the stage is pending and the newest is approved, none of them since (`UnknownCompletionPassesStaleApproval`).
- Permits are lost exactly by starts that are cancelled under way or replace a live box (`ConservationExactly`); only
  a task-level `destroy` leaves dead sandboxes in the cache (`CacheGoesStaleExactly`).
- The dry run ignores the project of a webhook, and names the right task exactly when its rule belongs to the project
  (`ProjectDryRunExactly`).
- Payload keys with dots can break the agreement of flattening and walking (`DottedKeyDisagrees` gives a family); a flat
  filter with a null title part raises where the tree form passes (`NullTitleDiffers`).

## Model

| member | source | states |
|---|---|---|
| StageGraph.Graph.Validate | platform/app/worker/graph.py:169-206 | `validate` is exact: it raises if and only if some dependency list is null; otherwise it reports no message if and only if every dependency and non-empty redirect is a known stage and the dependency relation has no cycle. The messages about unknown stages come first and are complete, and every cycle message names a stage that is on a cycle or leads into one |
| StageGraph.CycleSearch.HasCycle | platform/app/worker/graph.py:188-200 | the coloured search keeps its invariant through early returns: a gray stage is on the current chain or leads into a cycle, black stages are listed dependencies first; a hit adds exactly one message |
| StageGraph.CycleSearch.ExploreAll | platform/app/worker/graph.py:191-198 | the loop over a stage's dependencies turns all of them black, or stops at the first that leads into a cycle |
| StageGraph.CycleSearch.Explore | platform/app/worker/graph.py:192-198 | one dependency: unknown ones are passed over, gray ones are proved to lead into a cycle, white ones are searched |
| StageGraph.CycleSearch.SearchAll | platform/app/worker/graph.py:202-204 | searching from every white stage reports something if and only if the graph is cyclic |
| StageGraph.Graph.FindUnknownReferences | platform/app/worker/graph.py:176-182 | the messages about unknown stages, in the order of stages and of their dependencies; an exception if and only if a list is null |
| StageGraph.Graph.FindUnknownDependencies | platform/app/worker/graph.py:178-180 | the inner loop, over the dependencies of one stage |
| StageGraph.ReferenceErrorsExact | platform/app/worker/graph.py:176-182 | those messages are absent if and only if all dependencies and redirects of the stages are known |
| StageGraph.GrayIsDoomed | platform/app/worker/graph.py:194-196 | meeting a gray stage proves a cycle, also when the gray mark was left behind by an abandoned search |
| StageGraph.DepsFirstIsAcyclic | platform/app/worker/graph.py:184-206 | a listing of all stages with dependencies first excludes every cycle, whatever its length |
| StageGraph.Graph.GetAllStageNames | platform/app/worker/graph.py:149-167 | raises if and only if a dependency list is null; otherwise the listing has every stage and mentioned dependency exactly once, and has dependencies first if and only if the graph is acyclic |
| StageGraph.Listing.Visit | platform/app/worker/graph.py:154-162 | marking on entry is enough: a name met again while still on the chain occurs only on a cycle |
| StageGraph.Graph.GetReadyStages | platform/app/worker/graph.py:107-140 | the ready stages, in insertion order and without repeats, are exactly those not completed, running or skipped, with executions left if failed, and all dependencies done; an exception if and only if such a candidate has a null list |
| StageGraph.ReadyAmong | platform/app/worker/graph.py:122-140 | membership in the ready list is equivalent to the readiness of one stage |
| StageGraph.Graph.GetFailureRedirect | platform/app/worker/graph.py:142-147 | a target is returned exactly for a known stage with a non-empty `on_failure` |
| LinearMode.FromTemplateStages | platform/app/worker/graph.py:42-105 | builds the explicit graph when any stage names dependencies, keeping null lists null, else the inferred one; undecodable or empty templates give the empty graph |
| LinearMode.InferFromOrder | platform/app/worker/graph.py:80-103 | the loops over sorted groups give each stage of a group the names of the group before it |
| LinearMode.GroupDefs | platform/app/worker/graph.py:82-90 | the stable sort and the dictionary of lists yield, for ascending orders, the stages of each order in template order |
| LinearMode.ExplicitNode | platform/app/worker/graph.py:67-79 | in explicit mode the last definition of a name wins, with its own dependencies |
| LinearMode.GraphCarriesTemplate | platform/app/worker/graph.py:67-103 | every node carries the redirect, the execution limit (default 1) and the order (default 0) of a definition of its name |
| LinearMode.GroupStagesByOrder | platform/app/worker/engine.py:2769-2792 | groups by ascending order, template position as default and 999 for unknown stages; one group a stage without a decodable template |
| LinearMode.LinearOrderExactly | platform/app/worker/engine.py:2782-2790 | the order of a stage is that of the last definition of its name, its position without one, 999 for a stage that the template does not define |
| LinearMode.GroupsOrderStages | platform/app/worker/engine.py:2784-2792 | every stage stands in exactly one group, and one stage is in an earlier group than another if and only if its order is smaller |
| LinearMode.GroupsKeepOrder | platform/app/worker/engine.py:2784-2792 | within a group the stages keep their order |
| LinearMode.PutGroupsEffect | platform/app/worker/graph.py:89-103 | after k groups the graph holds exactly the first k levels, each stage depending on exactly the level before |
| LinearMode.InferredReadySet | platform/app/worker/graph.py:107-140 | once exactly the first k levels are completed or skipped, exactly level k is ready |
| LinearMode.ModesAgreeIffSameRanking | platform/app/worker/graph.py:1-8 | for any template without dependencies, the inferred graph offers the groups of linear mode one after the other if and only if no name stands under two orders and the graph's ranks (default 0) and the linear ranks (default position) order the stages alike |
| LinearMode.ExplicitOrdersAgree | platform/app/worker/engine.py:2782-2792 | with every order given, the graph offers the linear groups one after the other if and only if no name stands under two orders |
| LinearMode.MissingOrdersDisagree | platform/app/worker/engine.py:2782-2792 | without any orders, also with repeated names, the modes agree if and only if all stages have one name; otherwise the graph offers all at once, linear mode one after the other |
| LinearMode.InferredGraphIsAcyclicExactly | platform/app/worker/graph.py:80-103 | the inferred graph of any template is acyclic if and only if no name stands under two orders |
| LinearMode.InferredDependenciesAreKnown | platform/app/worker/graph.py:80-103 | an inferred graph has no unknown dependency and no null list, whatever the names |
| LinearMode.TemplateRaisesExactly | platform/app/worker/graph.py:65-79 | validating the graph of a template raises if and only if some stage names a dependency and the definition that counts for some name has a null list |
| GraphScheduler.ProcessTaskGraph | platform/app/worker/engine.py:1462-1687 | an exception on a null list and the refusal of an invalid graph, each exactly; otherwise the state is resumed from the stage rows, an outstanding check can stop the resume, and the loop runs to the cap |
| GraphScheduler.ResumeStages | platform/app/worker/engine.py:1505-1535 | the state that the stage rows of an earlier run leave behind, unless a completed stage fails its checks |
| Resuming.ResumedMeans | platform/app/worker/engine.py:1505-1535 | that state over the rows: completed are exactly the names with a completed row, skipped those with a skipped row, nothing is failed, and a count is that of the last row of its name, 0 without one |
| Resuming.FinishedStagesStayFinished | platform/app/worker/engine.py:1505-1563 | over a whole resumed run without redirects, a stage whose row is completed or skipped is never offered, and its count stays as its last row says, also when the run ends |
| Resuming.DoneIsLeftAlone | platform/app/worker/engine.py:1537-1563 | the same from any state: a stage that is done stays done, is never ready, and keeps its count |
| Resuming.LoneStageExactly | platform/app/worker/engine.py:1567-1641 | what each outcome of a lone ready stage does to the sets and the count, and which exit it takes |
| Resuming.RedirectExactly | platform/app/worker/engine.py:1592-1615 | a failure with a redirect takes the target out of the completed and failed stages and adds the failed stage; nothing else changes but the count of the stage that ran |
| Resuming.RedirectReopensTarget | platform/app/worker/engine.py:1592-1615 | the target is offered next if and only if it is a stage of the graph, not skipped, with its dependencies done, whatever its count |
| Resuming.CollectStopsExactly | platform/app/worker/engine.py:1664-1681 | collection ends early if and only if some stage that ran is without changes, and names the first of these |
| Resuming.LeavesExactly | platform/app/worker/engine.py:1540-1681 | when a round ends the run and how: cancelled, finished, stuck, or a parallel stage without changes, the first in launch order |
| Resuming.ParallelRoundExactly | platform/app/worker/engine.py:1643-1681 | a parallel round that goes on skips absent and excluded stages, executes each other one once, and files it as completed or failed by its outcome |
| GraphScheduler.GraphRun.Run | platform/app/worker/engine.py:1534-1687 | the loop over iterations computes the specified run and its ending |
| GraphScheduler.GraphRun.Step | platform/app/worker/engine.py:1540-1681 | one iteration: cancellation, ready set, finished or stuck, one stage or a parallel round |
| GraphScheduler.GraphRun.RunSingle | platform/app/worker/engine.py:1567-1641 | one ready stage: absent or excluded, failed with and without redirect, raised, without changes, completed, gate |
| GraphScheduler.GraphRun.RunParallel | platform/app/worker/engine.py:1643-1681 | several ready stages: all are launched or skipped, then collected |
| GraphScheduler.GraphRun.CollectResults | platform/app/worker/engine.py:1664-1681 | collection in launch order, up to a stage without changes |
| GraphScheduler.RunFrom | platform/app/worker/engine.py:1534-1538 | every run, with or without redirects, takes at most the capped number of rounds |
| SchedulerTheorems.SomeStageIsReady | platform/app/worker/engine.py:1548-1563 | no silent stall: on a valid graph some stage is ready whenever one is undone and every failed stage has completed |
| SchedulerTheorems.FinishedExactly | platform/app/worker/engine.py:1548-1563 | a round breaks off normally if and only if every stage is completed or skipped and every failed one completed |
| SchedulerTheorems.RoundHasEffect | platform/app/worker/engine.py:1565-1681 | the whole effect of a round without redirect: only ready stages change, each is skipped, or executed once and then completed or failed |
| SchedulerTheorems.MeasureFalls | platform/app/worker/engine.py:1537-1681 | the measure of the whole graph falls by at least the number of ready stages |
| SchedulerTheorems.RoundsArePaidFor | platform/app/worker/engine.py:1537-1681 | over any run without redirects the measure falls by at least one a round |
| SchedulerTheorems.MeasureBound | platform/app/worker/engine.py:1534-1538 | the measure is at most 2n plus the sum of the execution limits |
| SchedulerTheorems.RunsTerminate | platform/app/worker/engine.py:1534-1687 | without redirects a run ends by itself within 2n + sum of `max_executions` + 1 rounds, and a larger cap is never what ends it or what is reported |
| SchedulerTheorems.RunEnds | platform/app/worker/engine.py:1537-1687 | a run ends in the last round it reached or with all iterations used |
| SchedulerTheorems.NullRootsNeverValidate | platform/app/worker/graph.py:176-206 | if every list that a template gives is non-empty, no graph with explicit dependencies passes validation: it raises, or has an unknown reference, or is cyclic |
| RunLength.CapOnlyCuts | platform/app/worker/engine.py:1537-1541 | with the same inputs a cap changes nothing about a run but where it is cut off |
| RunLength.FinishingRunIsReportedExactly | platform/app/worker/engine.py:1683-1687 | a run that can finish, with whatever failures and redirects, finishes under a cap if and only if the cap reaches its number of rounds, and is reported as over the limit if and only if the cap is at most that number |
| RunLength.DoneRunsAreReported | platform/app/worker/engine.py:1683-1687 | such a run on a valid graph has everything done one round before it finishes, and is reported under both of these caps |
| RunLength.SmoothRunGoesByLayers | platform/app/worker/engine.py:1537-1681 | after i rounds in which nothing goes wrong exactly the stages from which no dependency chain of i + 1 stages starts are done |
| RunLength.SmoothRunTakesLongestChain | platform/app/worker/engine.py:1537-1687 | such a run takes the length of the longest chain plus one rounds; everything is done if and only if the cap is at least the length, and it is reported if and only if the cap is at most the length plus one |
| RunLength.LongestChainExists | platform/app/worker/engine.py:1537-1687 | every valid graph has a longest chain, of at most all its stages |
| RunLength.SmoothRunIsReportedExactly | platform/app/worker/engine.py:1537-1687 | with the engine's cap such a run is reported if and only if the graph is empty, there are no iterations, one a stage on a graph whose longest chain leaves out at most one stage, or two on a graph of one stage |
| SchedulerTheorems.ExecutionsAreLimited | platform/app/worker/graph.py:126-138 | at the start of every round of a run without redirects no stage has been executed beyond its limit, or beyond one more than it had at the start |
| SchedulerTheorems.RunEndsWithinLimit | platform/app/worker/engine.py:1537-1687 | the same for the state such a run ends in, under any cap, with the executions of the round that ends it |
| SchedulerTheorems.ReadyDependsOnDone | platform/app/worker/graph.py:135-138 | in a dependency-closed state everything a ready stage depends on, at any distance, is done |
| SchedulerTheorems.DoneStaysClosed | platform/app/worker/engine.py:1540-1681 | completed plus skipped is dependency-closed at the start of every round of a run without redirects, and only grows |
| SchedulerTheorems.LeavingRoundHasEffect | platform/app/worker/engine.py:1540-1681 | the round that ends a run executes only ready stages, once each, and completes or skips no others |
| SchedulerTheorems.RunEndsClosed | platform/app/worker/engine.py:1537-1687 | under any cap such a run ends with completed plus skipped dependency-closed, which is what a resumed run starts from |
| SchedulerTheorems.StagesRunInOrder | platform/app/worker/engine.py:1540-1681 | in such a run a stage is offered only after all its transitive dependencies are done, and stages offered together never depend on each other |
| SchedulerTheorems.SmoothRunsFinish | platform/app/worker/engine.py:1537-1681 | on a valid graph, when every stage succeeds or is skipped, the run does all stages within n + 1 rounds and finishes |
| SchedulerTheorems.ExhaustedFailureIsFinal | platform/app/worker/engine.py:1548-1563 | a failed stage without executions left that nothing redirects to is never offered again, and the run never finishes, redirects included |
| SchedulerTheorems.StuckWithEverythingDone | platform/app/worker/engine.py:1554-1562 | with every stage done the run is called stuck if and only if a failed stage was skipped and not completed |
| SchedulerTheorems.FailedThenSkippedIsStuck | platform/app/worker/engine.py:1554-1562 | a run from the start that reaches this, for any two independent stages |
| SchedulerTheorems.OnlyLoneStagesMeetTheirGate | platform/app/worker/engine.py:1629-1641 | gate answers change no round with several ready stages, and decide a round with one succeeding stage |
| SchedulerTheorems.SmoothRunReplaysLinearMode | platform/app/worker/graph.py:1-8 | whenever the two modes rank the stages alike, a whole graph run in which every stage succeeds or is skipped does in its i-th round exactly the i-th linear group, after exactly the groups before it |
| SchedulerTheorems.RoundPerGroup | platform/app/worker/engine.py:1537-1681 | such a run goes on exactly while there is another group and then finishes |
| SchedulerTheorems.OneRoundPerGroup | platform/app/worker/engine.py:2769-2792 | such a run takes one round for each group plus the one that finds nothing left, ends with every group done, and is reported as over its limit if and only if the cap is exactly that number |
| TaskLogPipeline.UpdateLog | platform/app/services/task_log_service.py:137-178 | an update changes exactly the allowed fields of the rows with its id, and reports whether it hit one |
| TaskLogPipeline.MaxEventSeq | platform/app/services/task_log_service.py:180-186 | the largest number of the task's rows, or 0 |
| TaskLogPipeline.TaskLogEventPipeline.Start | platform/app/services/task_log_pipeline.py:43-56 | starts a worker unless the pipeline is running, also without an emission |
| TaskLogPipeline.TaskLogEventPipeline.NextEventSeq | platform/app/services/task_log_pipeline.py:213-214 | hands out one more than the cached number of the task |
| TaskLogPipeline.TaskLogEventPipeline.EnqueueOp | platform/app/services/task_log_pipeline.py:148-162 | at a full queue a low-priority operation is refused and others wait; all others are accepted |
| TaskLogPipeline.TaskLogEventPipeline.EmitCreateOp | platform/app/services/task_log_pipeline.py:79-114 | starts the pipeline and waits for the sequence lock |
| TaskLogPipeline.TaskLogEventPipeline.AskForNumber | platform/app/services/task_log_pipeline.py:206-212 | with the lock free, a call for a known task is numbered and enqueued at once; for another the table is asked and the lock held |
| TaskLogPipeline.TaskLogEventPipeline.TakeAnswer | platform/app/services/task_log_pipeline.py:212-214 | the answer fills the cache and the call goes on; a failing query only releases the lock |
| TaskLogPipeline.TaskLogEventPipeline.SubmitCreate | platform/app/services/task_log_pipeline.py:114-130 | number first, then enqueue: the number is used up even if the operation is refused |
| TaskLogPipeline.TaskLogEventPipeline.EmitUpdateOp | platform/app/services/task_log_pipeline.py:132-146 | enqueues an update |
| TaskLogPipeline.TaskLogEventPipeline.BeginBatch | platform/app/services/task_log_pipeline.py:164-172 | the worker takes the first operation of a batch |
| TaskLogPipeline.TaskLogEventPipeline.CompleteBatch | platform/app/services/task_log_pipeline.py:173-180 | the inner loop moves operations from the queue to the batch up to the batch size, in order |
| TaskLogPipeline.TaskLogEventPipeline.FlushBatch | platform/app/services/task_log_pipeline.py:190-204 | a batch is applied as a whole in order, or not at all |
| TaskLogPipeline.TaskLogEventPipeline.ExitWorker | platform/app/services/task_log_pipeline.py:164-170 | a worker ends only when the pipeline is stopped and the queue is empty |
| LogOrder.RunKeepsAccount | platform/app/services/task_log_pipeline.py:148-204 | in every run, with any number of workers, drops, failed batches and restarts: each accepted operation is queued, held by one worker or finished, exactly once; the queue is the last accepted ones, and the table is the committed batches written directly |
| LogOrder.FlushKeepsOrderExactly | platform/app/services/task_log_pipeline.py:190-204 | a step keeps the order of acceptance if and only if it is no flush of a batch while another worker holds an older operation |
| LogOrder.InOrderExactly | platform/app/services/task_log_pipeline.py:164-204 | operations finish in the order of acceptance throughout a run if and only if no batch is flushed while another worker holds an older operation |
| LogOrder.OneBatchInFlight | platform/app/services/task_log_pipeline.py:164-204 | in order and with one batch in flight, the accepted operations are the finished ones, then that batch, then the queue |
| LogOrder.OneWorkerNeverOvertakes | platform/app/services/task_log_pipeline.py:43-73 | a run that never starts a stopping pipeline has at most one worker and never overtakes |
| LogOrder.DrainedEqualsDirectWrites | platform/app/services/task_log_pipeline.py:148-204 | once drained, with no failed batch and nothing overtaken, with any number of workers, the table equals writing every accepted operation directly, one by one |
| LogOrder.StoppedMeansDrained | platform/app/services/task_log_pipeline.py:58-68 | when the last worker leaves after a stop, everything accepted so far has finished |
| LogOrder.RefusedExactly | platform/app/services/task_log_pipeline.py:148-162 | an operation is refused exactly when it is of low priority and the queue is full, and waits exactly when it is of another priority |
| LogOrigins.EveryOperationWasEmitted | platform/app/services/task_log_pipeline.py:79-146 | in every run, restarts included, each operation in the queue, in a batch, blocked, accepted or finished carries the id, task, fields and priority, or the updates, of an emission of the run |
| LogOrigins.NothingVanishes | platform/app/services/task_log_pipeline.py:79-162 | in every run an emission that the current process was given n times is in n places: waiting for its number, asking the table, blocked, accepted, or given up, which happens only to a call whose query fails and to a low-priority call at a full queue |
| LogOrigins.AcceptedCreationLands | platform/app/services/task_log_pipeline.py:79-204 | in a drained run without overtaking or failed batches an accepted creation with an unused id has exactly one row, with the task and fields of its emission, overlaid by the allowed fields of the updates accepted later, in order |
| LogOrigins.CreationOverlaid | platform/app/services/task_log_service.py:125-178 | writing operations directly: a row with an unused id ends as created, overlaid by the later updates of its id |
| LogOrigins.LastSetCounts | platform/app/services/task_log_service.py:137-178 | a field of an overlaid row has the value of the last update that sets it |
| LogOrigins.UnsetIsKept | platform/app/services/task_log_service.py:137-178 | a field that no update sets, or may set, keeps its first value |
| LogOrigins.SizesAreKept | platform/app/services/task_log_pipeline.py:148-188 | in every run the queue stays within its capacity, and every batch has at least one and at most the batch size of operations |
| LogOrigins.FilledMeansFullOrEmpty | platform/app/services/task_log_pipeline.py:173-180 | a batch is completed only when it is full or the queue is empty |
| LogOrder.OrderMattersExactly | platform/app/services/task_log_service.py:125-178 | exchanging two neighbouring operations changes the table if and only if an update changes the very row being created, two updates of an existing row disagree on a field, or two different rows are created |
| LogOrder.SecondWorkerReorders | platform/app/services/task_log_pipeline.py:43-73 | for any queue and batch size: an update emitted during a stop overtakes the creation of its row and stays without effect, although every batch commits |
| LogStops.StrandsExactly | platform/app/services/task_log_pipeline.py:58-68 | a step strands an operation if and only if a call that was under way (numbered from the cache, answered by the table, or waiting for room) puts it on the queue after the last worker left |
| LogStops.RunStrandsExactly | platform/app/services/task_log_pipeline.py:58-73 | a run ends with stranded operations if and only if one was accepted so late and no start, new call or new process has begun since |
| LogStops.WorkersCanLeave | platform/app/services/task_log_pipeline.py:58-68 | from every stopped state with nothing stranded yet the workers can finish the queue and leave while the calls under way still wait |
| LogStops.CanStrandExactly | platform/app/services/task_log_pipeline.py:58-68 | from a state with nothing stranded, without a new call or start, an operation can end stranded if and only if some call is still under way |
| LogNumbers.FlushAddsCounts | platform/app/services/task_log_pipeline.py:190-204 | a committed batch adds exactly its creations to the rows of each task and number |
| LogNumbers.StepKeepsNumbered | platform/app/services/task_log_pipeline.py:103-130 | every step keeps the numbering invariant, with drops, failed batches, second workers and restarts |
| LogNumbers.NumbersStayUnique | platform/app/services/task_log_pipeline.py:206-214 | in every run, restarts included, no landed row repeats the number of another row of its task; the numbers that the current process handed out for a task grow in the order they were handed out |
| LogHistory.LaterNumbersExceedLanded | platform/app/services/task_log_pipeline.py:206-214 | over the whole history, restarts included: a landed row stays, and every number of its task handed out later, by whatever process, is above its number |
| LogHistory.NumbersGrowInOneProcess | platform/app/services/task_log_pipeline.py:206-214 | without a restart in between a number is above every earlier one of its task, landed or not |
| LogHistory.CanBeHandedOutExactly | platform/app/services/task_log_pipeline.py:206-214 | from any reachable state some continuation hands out a given number of a task if and only if the number is above everything of the task in the table |
| LogHistory.CanRepeatExactly | platform/app/services/task_log_pipeline.py:206-214 | a number that was handed out can be handed out again if and only if no row of its task with that number or a higher one has landed |
| StageEvents.AppendFollowsTruncation | platform/app/worker/stage_event_tracker.py:60-70 | appending a chunk to a truncated output gives the truncation of the longer output, flag included |
| StageEvents.StreamingIsTruncation | platform/app/worker/stage_event_tracker.py:60-70 | however the output is cut into chunks, streaming it equals truncating it once; the flag is set exactly when it does not fit, also if the output ends in the marker text |
| StageEvents.OpenSummaryIsTruncatedOutput | platform/app/worker/stage_event_tracker.py:383-404 | in every run the summary of an open tool call is the truncation of all it streamed since its row was opened |
| StageEvents.StageEventTracker.EmitChatSent | platform/app/worker/stage_event_tracker.py:179-198 | opens a running row under the correlation id |
| StageEvents.StageEventTracker.EmitChatReceived | platform/app/worker/stage_event_tracker.py:200-235 | closes the row of the correlation id, if it has one |
| StageEvents.StageEventTracker.OnTurnStart | platform/app/worker/stage_event_tracker.py:284-307 | opens a running row under the turn of the active chat |
| StageEvents.StageEventTracker.OnTurnEnd | platform/app/worker/stage_event_tracker.py:309-344 | closes the row of the turn, if it has one |
| StageEvents.StageEventTracker.OnBeforeToolCall | platform/app/worker/stage_event_tracker.py:346-381 | opens a running row under the tool call |
| StageEvents.StageEventTracker.OnToolExecutionUpdate | platform/app/worker/stage_event_tracker.py:383-404 | appends a chunk to the summary of an open call |
| StageEvents.StageEventTracker.OnAfterToolResult | platform/app/worker/stage_event_tracker.py:406-455 | closes the row of the call or records a closed one, and keeps the last twenty runs |
| StageEvents.StageEventTracker.FinalizeUnfinished | platform/app/worker/stage_event_tracker.py:506-561 | closes all open turns, then chats, then tool calls |
| StageEvents.RunBalances | platform/app/worker/stage_event_tracker.py:179-455 | at every point of every run the opened rows split into open (one slot each), closed exactly once, and lost; rows are lost exactly when an id is reused while open |
| StageEvents.FinalizedExactlyOnce | platform/app/worker/stage_event_tracker.py:506-561 | after finalizing all maps are empty, no row is closed twice, and every opened row is closed exactly once if and only if no id was reused while open |
| StageHistory.MapsFollowHistory | platform/app/worker/stage_event_tracker.py:179-455 | after any callbacks the active chat is the last one sent that was not answered, and each key holds the row that was opened under it and not closed since |
| StageHistory.CallbacksSendExactly | platform/app/worker/stage_event_tracker.py:179-455 | what each callback sends: a chat is closed with its status, a turn as "success", a tool call as "failed" if and only if the output starts with one of the five prefixes, with the truncation of what it streamed, or the output if that is empty |
| StageHistory.FinalizeSendsExactly | platform/app/worker/stage_event_tracker.py:506-561 | finalizing sends one closing with the given status for each open row, turns first, then chats, then tool calls; only tool calls have an output, the truncation of what they streamed |
| StageHistory.StatusOfOutput | platform/app/worker/stage_event_tracker.py:17-27 | an output means failure if and only if it starts with one of the five prefixes |
| StageHistory.RemembersLastTwenty | platform/app/worker/stage_event_tracker.py:431-488 | exactly the last twenty finished calls are remembered, with status, announced command and preview |
| StageHistory.TurnKeysDiffer | platform/app/worker/stage_event_tracker.py:284-309 | with correlation ids of one length, the keys of turns differ whenever chat or turn does |
| StageEvents.TruncationKeepsBeginning | platform/app/worker/stage_event_tracker.py:60-70 | at most 50,000 characters are kept: the whole output, or its beginning and the mark that it was cut |
| HumanGates.GateDesk.ReviewGate | platform/app/services/gate_service.py:64-119 | approve, reject and revise set status and review time of a known gate, resolved or not |
| HumanGates.GateDesk.AwaitGate | platform/app/worker/engine.py:2504-2653 | polling: timeout before cancellation before the gate's answer |
| GateCalls.FirstPollDecides | platform/app/worker/engine.py:2529-2653 | waiting ends at the first poll that finds the time over, the task cancelled or the gate resolved, and is answered in this order |
| GateCalls.LastVerdictCounts | platform/app/services/gate_service.py:64-119 | over any reviews and waiting a gate stands as its last review left it, with the time of that review |
| GateCalls.UnreviewedIsUnchanged | platform/app/services/gate_service.py:64-119 | a gate that nobody reviews stays as it is |
| HumanGates.GateDesk.HandleGate | platform/app/worker/engine.py:2393-2510 | joins a pending gate of the stage, accepts the newest approval again if it is fresh, else opens one gate; then waits |
| GateCalls.OpensExactly | platform/app/worker/engine.py:2420-2510 | a visit opens one gate, dated now and with the number of retries, if and only if the stage has no pending gate and its newest is not approved or known to be older than the completion; otherwise it joins, or passes at once without a change |
| HumanGates.GateDesk.HandleGateWithRetry | platform/app/worker/engine.py:2279-2390 | the retry loop with re-execution on rejection and revision |
| GateCalls.PassedOutputIsTheLast | platform/app/worker/engine.py:2303-2390 | a call that passes after k re-executions made more than k attempts; the output is the one it was made with for k = 0, and otherwise that of the last re-execution, whose own clock is the recorded completion |
| GateCalls.CallFollowsAnswers | platform/app/worker/engine.py:2303-2390 | a call goes on exactly as long as its visits ask for another execution that yields an output, and ends as its last visit and the number of retries say |
| GateCalls.ReachedCounts | platform/app/worker/engine.py:2303-2375 | k re-executions count as k retries, by their causes |
| HumanGates.ApprovalIsFresh | platform/app/worker/engine.py:2442-2470 | one visit to a gate answers "approved" only if a gate of the stage stands approved, reviewed no earlier than the stage completed |
| HumanGates.OutputNeedsFreshApproval | platform/app/worker/engine.py:2303-2390 | in one call, over any reviews, rejections, revisions and re-executions, an output passes only with an approval no earlier than the completion of the execution that produced it |
| HumanGates.HandleKeepsStamps | platform/app/worker/engine.py:2303-2390 | however a call ends, resolved gates stay stamped, rows dated in clock order and the recorded completion in the past |
| HumanGates.OutputsNeedFreshApproval | platform/app/worker/engine.py:2303-2390 | over any sequence of executions, calls, reviews, timeouts and resumes: whenever a call for a stage with a recorded completion passes an output, an approval is no earlier than the completion of the execution that produced it |
| HumanGates.NewestIsLatest | platform/app/worker/engine.py:2442-2455 | the gate looked at is one of the stage with the latest creation time |
| HumanGates.UnknownCompletionPassesStaleApproval | platform/app/worker/engine.py:2457-2465 | for any gate table and true completion time: a visit without a recorded completion passes with no approval since the completion if and only if no gate of the stage is pending, the newest is approved, and none was approved since |
| HumanGates.HandleKeepsAccount | platform/app/worker/engine.py:2343-2375 | one call re-executes for rejections at most `max_retries` times, also with revisions in between, and gives up only when the retry count has reached it |
| HumanGates.AtGateKeepsOnePending | platform/app/worker/engine.py:2420-2510 | a visit to a gate never makes two pending gates of one task, type and stage |
| HumanGates.AtMostOnePendingGate | platform/app/worker/engine.py:2420-2510 | over any sequence of calls, timeouts, resumes and reviews at most one gate per task, type and stage is pending |
| Sandboxes.BoxLiteSandboxBackend.Create | platform/app/worker/sandbox_boxlite.py:59-146 | each way a start can go, with what it does to permits and boxes |
| Sandboxes.CreatingExactly | platform/app/worker/sandbox_boxlite.py:59-146 | each outcome of a start: the permit count, the one box that changes, and the answer |
| Sandboxes.BoxLiteSandboxBackend.DestroyByKey | platform/app/worker/sandbox_boxlite.py:257-266 | removes a box and returns one permit, exactly if the key has a box |
| Sandboxes.BoxLiteSandboxBackend.DestroyTask | platform/app/worker/sandbox_boxlite.py:241-255 | removes the boxes of a task and returns one permit for each |
| Sandboxes.BoxLiteSandboxBackend.DestroyEverything | platform/app/worker/sandbox_boxlite.py:268-272 | removes all boxes and returns one permit for each |
| Sandboxes.SandboxManager.Create | platform/app/worker/sandbox.py:608-621 | a task-level box under the role "default", not cached |
| Sandboxes.SandboxManager.GetOrCreateRoleSandbox | platform/app/worker/sandbox.py:623-660 | a cached sandbox is returned as it is; otherwise one is created and cached if the start succeeds |
| Sandboxes.ManagerCreatesExactly | platform/app/worker/sandbox.py:608-660 | a cached role is answered without a change; otherwise the answer, permits and boxes are those of a start under its key, and the cache gains that key exactly if the start succeeds |
| Sandboxes.SandboxManager.DestroyTask | platform/app/worker/sandbox.py:695-696 | removes the boxes of a task and leaves the cache alone |
| Sandboxes.SandboxManager.DestroyRoleSandboxes | platform/app/worker/sandbox.py:698-704 | removes the cached roles of a task and its boxes |
| Sandboxes.SandboxManager.DestroyEverything | platform/app/worker/sandbox.py:706-708 | empties cache and pool |
| Sandboxes.DestroyAllExactly | platform/app/worker/sandbox.py:706-708 | afterwards there are no boxes and no cached roles, and one permit came back for each box |
| Sandboxes.DestroyAllRestoresPool | platform/app/worker/sandbox_boxlite.py:268-272 | after any run that lost no permit, destroying everything gives the fresh pool again |
| Sandboxes.DestroyExactly | platform/app/worker/sandbox_boxlite.py:241-255 | after destroying a task no box of it is left, all others are as before, and one permit came back for each |
| Sandboxes.DestroyRolesExactly | platform/app/worker/sandbox.py:698-704 | destroying the roles of a task also removes exactly its cached roles |
| Sandboxes.TasksDoNotShareBoxes | platform/app/worker/sandbox_boxlite.py:241-255 | with colon-free task ids a role box belongs to its own task and to no other |
| Sandboxes.StepAccounts | platform/app/worker/sandbox_boxlite.py:95-146 | every call keeps free permits + live boxes + lost permits at the limit, and loses a permit exactly in the described calls |
| Sandboxes.ConservationExactly | platform/app/worker/sandbox_boxlite.py:95-146 | in every run free permits plus live boxes equals the limit if and only if no start was cancelled under way or replaced a live box |
| Sandboxes.DisciplineConserves | platform/app/worker/sandbox.py:623-660 | callers that create a task-level box once, use proper role names and do not cancel keep all permits: every role box is in the cache, so none is overwritten |
| Sandboxes.CacheGoesStaleExactly | platform/app/worker/sandbox.py:695-704 | of all calls only the task-level `destroy` leaves a dead sandbox in the cache, exactly when a role of the task is cached; a sandbox answered from a live cache is a live box |
| Sandboxes.CacheStaysLive | platform/app/worker/sandbox.py:623-660 | without it every cached sandbox is live at every point of the run |
| Sandboxes.SuffixIsTheTask | platform/app/worker/sandbox_boxlite.py:241-255 | with colon-free task ids the suffix test selects a task's own boxes and no others |
| Triggers.TriggerService.ProcessEvent | platform/app/services/trigger_service.py:22-110 | rules in order, first match wins, one log row for each rule tried |
| TriggerDecisions.CreatesTaskExactly | platform/app/services/trigger_service.py:22-110 | an event creates a task if and only if some enabled rule for its source, type and project passes its filter and is no repetition; the task is the rendered one of the first such rule |
| TriggerDecisions.TrialsExactly | platform/app/services/trigger_service.py:68-110 | the rules are tried in order up to the first that fires; each leaves one row with its id, result, key and time |
| TriggerDecisions.MatchedExactly | platform/app/services/trigger_service.py:38-52 | the rules tried are exactly the enabled ones of the source with the event type "*" or that of the event, and of the project if one is given |
| TriggerDecisions.PlaceOfMatched | platform/app/services/trigger_service.py:38-52 | they are tried in their stored order |
| TriggerDecisions.NoRuleIsLogged | platform/app/services/trigger_service.py:54-60 | an event without a rule leaves one row that says so |
| Triggers.TriggerService.SimulateEvent | platform/app/services/trigger_service.py:264-339 | the dry run, with what it reports when no rule triggers |
| TriggerDecisions.PreviewExactly | platform/app/services/trigger_service.py:264-339 | the dry run reports the first rule that would fire, else the last one tried with the reason it is skipped, always with the task and key that its templates give |
| Triggers.TriggerService.LogEvent | platform/app/services/trigger_service.py:177-201 | appends one row |
| Triggers.SkipsNeverBlock | platform/app/services/trigger_service.py:162-175 | rows of skipped rules never change a later duplicate check |
| TriggerDecisions.RepeatsIsBlocked | platform/app/services/trigger_service.py:162-175 | an event is a repetition for a rule if and only if a triggered row with its id and key is no older than its hours, 24 if unset |
| Triggers.DryRunPredictsRun | platform/app/services/trigger_service.py:264-339 | for the same rules, log and instant the real run creates a task if and only if the dry run says so, the same task for the same rule, and its last row carries the dry run's result |
| Triggers.ProjectDryRunExactly | platform/app/services/trigger_service.py:276-339 | with a project the reported task is the one created if and only if the reported rule belongs to the project; a preview without a task is always right |
| Triggers.TriggersStaySpaced | platform/app/services/trigger_service.py:78-103 | over any sequential run on a nondecreasing clock two triggers of one rule with one key are more than its window apart, 0 hours counting as 24 |
| Filters.EvalDecidesFormula | platform/app/services/trigger_service.py:451-473 | when no leaf raises, the short-circuiting evaluator decides the formula: all for "and", some for "or", not all for "not", anything for unknown operators |
| Filters.FlatIsConjunction | platform/app/services/trigger_service.py:567-640 | a flat filter answers as the conjunction tree of its keys on every payload, exceptions included, if its values have the expected kinds, and whenever it answers at all |
| FilterLeaves.LabelsTestExactly | platform/app/services/trigger_service.py:405-419 | in a payload without dotted keys a labels test passes if and only if some wanted label is the text or the "name" of a label of the payload, fails without a list of labels, and raises on a label of another kind |
| FilterLeaves.LabelsLeaf | platform/app/services/trigger_service.py:594-605 | tree leaf and flat key ask the same labels test |
| FilterLeaves.BranchLeaf | platform/app/services/trigger_service.py:421-427 | in a payload without dotted keys a branch test passes if and only if its value is the first named branch, else the branch of a ref whose name does not hold `refs/heads/` again, else, without a ref, the empty text |
| FilterLeaves.TitleLeaf | platform/app/services/trigger_service.py:429-436 | a title test passes if and only if the part occurs in the title, both in lower case |
| FilterLeaves.AuthorLeaf | platform/app/services/trigger_service.py:438-445 | an author test passes if and only if the author is none of those listed |
| FilterLeaves.TitleAndAuthorExactly | platform/app/services/trigger_service.py:429-445 | title and author are the first of their paths with a value, else what Jira has under its own |
| FilterLeaves.FirstTruthyMeans | platform/app/services/trigger_service.py:421-445 | the first of several paths whose value counts as true |
| FilterLeaves.PathsAreWalked | platform/app/services/trigger_service.py:394-402 | the paths that the tests read give what walking the payload gives |
| Filters.NullTitleDiffers | platform/app/services/trigger_service.py:608-620 | with a null title part the flat form raises and the tree passes |
| Flatten.FlattenDict | platform/app/services/trigger_service.py:394-402 | the recursive flattening, an object keeping its own key beside its dotted ones |
| Flatten.GetNestedField | platform/app/worker/conditions.py:68-77 | the loop walks the path and ends with null at anything that is no object |
| Flatten.JoinUndoesSplit | platform/app/worker/conditions.py:70 | joining the parts of a path gives the path back, and no part has a dot |
| Flatten.SplitUndoesJoin | platform/app/services/trigger_service.py:394-402 | dot-free keys survive join and split, so distinct key lists have distinct paths |
| Flatten.FlatteningAgreesWithWalking | platform/app/services/trigger_service.py:394-402 | for a payload without dots in its keys, looking any path up in the flattened payload gives what walking the payload gives |
| Flatten.DottedKeyDisagrees | platform/app/services/trigger_service.py:394-402 | for every object with a dotted top-level key that has a value and starts with no key of the object, some path reads differently in the flattened payload and on the walk |

## Left out

- Prompts, model calls, compression, worktrees, containers and notifications: a stage execution is its outcome.
- Decoding of JSON: templates and payloads are modelled decoded.
- `agent_role`, `condition` and the texts of messages and comments are not modelled; a skip condition is an input of the round.
- Final task status: what the engine does after the graph loop returns, and writes that overwrite a cancellation.
- Redirects: the measure, order and execution theorems assume none fires, because a redirect re-opens its target without its dependents and beyond its limit; `RunFrom` bounds all runs, and `ExhaustedFailureIsFinal` includes redirects.
- SchedulerTheorems.SmoothRunsFinish: assumes gates pass and no cancellation, as its subject is the graph.
- Order values are integers and execution limits numbers, as the template schema has them; missing ones are absent, not null.
- Graph search recursion depth: Python's recursion limit is not modelled.
- TaskLogPipeline: one process at a time; the stage of a row, the cleaning of values and the time limit of the drain are not modelled.
- TaskLogPipeline.TaskLogEventPipeline.FlushBatch: whether the transaction commits is an input.
- StageEvents: runner callbacks come one after the other; not modelled are broadcasts, durations, the convergence counters and the fields of the rows other than status, output summary and truncation flag; row ids are assumed fresh.
- HumanGates.OutputsNeedFreshApproval: assumes that a completion of the stage is recorded when the call starts; executions and re-executions record one, and `UnknownCompletionPassesStaleApproval` says what happens otherwise.
- Gates have positions as ids; of several with the same `created_at` the last row counts as the newest. Comments on gates are left out.
- HumanGates.GateDesk.HandleGateWithRetry: the script of attempts is finite, so endless revisions end as `InProgress`; nothing bounds them in the program.
- Final verdicts: a resolved gate may be reviewed again, as in the program.
- Sandboxes: concurrent creation for one role, a cancelled `destroy`, and the Docker backend, whose containers are keyed by task only.
- Sandboxes.SandboxManager.GetOrCreateRoleSandbox: resource profiles do not affect permits.
- Triggers: webhooks handled at the same time, rule administration, `test_rule`, and the failure of task creation.
- Triggers.Library: template rendering is any function of template and payload; a filter is its answer, so a filter that raises is covered by `Filters` but not by a run of the service.
- Filters: equality of values is structural, so Python's `True == 1` is not modelled, nor is a condition that is no object; a filter dictionary without `op` is read as the flat form, as in the program, even if it looks like a leaf.
- Condition operators (`_apply_operator`) and number comparison: branching without state.
