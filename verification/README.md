# A verified model of the AxcAgentEngine kernels

AxcAgentEngine runs language-model agents. Most of it is asynchronous glue, but a number of small kernels
carry real obligations: a planning loop that must stop whatever the model answers, a scheduler, two graph
algorithms, concurrent tool calls, gates and limiters, stream handling, bounded stores and a simulation.
This project models those kernels in Dafny and proves what they owe their callers. `dafny verify
dfyconfig.toml` checks all of it.

What the language model, the tools, the clock and the network do is an input everywhere: theorems quantify
over all step outcomes, verdicts, replies, chunk streams, schedules and clock readings. Code that updates
state in place is modelled by classes and methods, each proved against a specification function or relation;
the theorems are about those.

## The parts

| files | subject |
|---|---|
| `Planner`, `Digraph` | plan validation and its recursive cycle check |
| `Scheduler`, `Replanner`, `ReplanValidity`, `StepRunner` | ready steps, observation, replanning and what it keeps valid, the bounded step loop |
| `PorMachine`, `PorRuns`, `PorRunner` | the plan-observe-replan loop: transition system, theorems over runs, imperative form |
| `PlanCheckpoint`, `CheckpointStore`, `RunCheckpoints` | saving and resuming plans, the checkpoint store, and both together |
| `PlanExamples` | concrete runs that show where promises of the loop fail |
| `ToolBatches` | batching of tool calls over all interleavings |
| `SessionGate`, `RateLimiter` | the per-session gate over all interleavings, the requests-per-minute limiter |
| `PluginLoader`, `StableSorting` | plugin ordering |
| `JsonScanner` | finding JSON in text |
| `StreamMessages`, `StreamEvents`, `StreamAggregator`, `StreamCalls` | streamed model calls with retries |
| `ArtifactStore`, `ArtifactPaging` | the artifact store and reading from it piece by piece |
| `ToolNames` | tool names and their aliases |
| `WorldStates`, `Simulation` | the simulation kernel |

## Where the code falls short of its promise

The model follows the code. These statements give the exact condition under which a promise is kept.

- The COMPLETED checkpoint of a finalized run is numbered below the checkpoints of the last step, so `latest`
  does not return it (`RunCheckpoints.CompletionIsLatestExactly`, `PlanExamples.CompletionIsOutranked`). A replan
  after a parallel batch is outranked in the same way unless the failed step has the greatest identifier of its
  batch (`RunCheckpoints.ReplanIsLatestExactly`, `PlanExamples.ReplanIsOutranked`).
- A step is saved as COMPLETED when it reaches the goal, but in a parallel batch the run then goes on
  (`RunCheckpoints.CompletedStepEndsExactlyWhenAlone`, `RunCheckpoints.BatchSavesCompletedExactly`,
  `PlanExamples.ReplanIsOutranked`).
- A resumed run numbers its checkpoints from round zero again, so `latest` keeps returning the first run's
  (`RunCheckpoints.OldSavesStayLatestExactly`, `RunCheckpoints.ResumedRunStaysHidden`,
  `PlanExamples.ResumedRunIsHidden`).
- Resuming looks for `current_step_id` at the top level, where `plan_to_state` does not put it
  (`PlanCheckpoint.StoredCursorIsNotRead`, `PlanCheckpoint.CursorMattersExactlyWhenLost`,
  `PlanCheckpoint.MissedCursorLeavesStepFailed`).
- Replacement steps are adopted without validation. A run is safe exactly as long as adopted replies have fresh
  identifiers (`PorRuns.RunIsSafeExactly`), and its plan valid exactly as long as they fit
  (`PorRuns.RunIsValidExactly`, `ReplanValidity.ValidIffFits`). A reused identifier lets a result overwrite a DONE
  step (`PorRuns.ResultUndoesDone`, `PlanExamples.ReusedIdUndoesDone`), and a step that depends on itself is
  stranded (`PlanExamples.SelfDependentStepIsStranded`).
- The total round limit can be overrun by up to four rounds (`StepRunner.TotalLimitRespected`,
  `StepRunner.TotalLimitOverrun`), and the replan counter can end one above its maximum
  (`PorRuns.CounterExceedsExactly`, `PlanExamples.CounterEndsAtFour`).
- A streamed call that fails while thinking leaves the thinking bracket open for good
  (`StreamCalls.BracketsCloseExactlyWhenRetriesAreQuiet`, `StreamCalls.DroppedThinkingIsNeverClosed`).
- Following `next_offset` collects the whole text or never ends, and it never ends exactly when some piece before
  the last is not ASCII (`ArtifactPaging.FollowingEndsExactly`, `ArtifactPaging.FollowingCanRunForever`).
- Eviction does not end when the durable entries alone exceed a limit
  (`ArtifactStore.EvictionEndsExactlyWhenDurableFit`, `ArtifactStore.PinnedEntriesBlockEviction`). `PutEntry` and
  `EvictToLimits` therefore require that they fit.
- The hashed alias of a tool name is not checked again (`ToolNames.RoundTripExactlyWithoutClash`,
  `ToolNames.HashedAliasCanClash`).
- JSON behind an earlier opening bracket is not found (`JsonScanner.FoundExactlyAtFirstBracket`,
  `JsonScanner.EarlierBracketHides`).
- A fact listed twice survives one removal (`WorldStates.FactsHoldExactly`, `WorldStates.DuplicatesSurviveRemoval`).
- A simulation does not end when it selects actors of whom none has a policy
  (`Simulation.EndsExactlyUnlessStarved`, `Simulation.ActorWithoutPolicyRunsForever`). `Run` therefore requires that the
  run ends.
- The docstring of `RateLimiter` calls it a fixed-window limiter; the code, and the model, is a sliding window.

## Model

| member | source | states |
|---|---|---|
| Planner.CycleCheck.Visit | axc_agent_engine/planning/planner.py:77-86 | The recursive search finishes a node or names one on a cycle: a finished node is ranked above all its dependencies, a reported one lies on a cycle. It terminates because every call that goes deeper adds to `visiting`. |
| Planner.ValidateAcyclic | axc_agent_engine/planning/planner.py:72-89 | It reports a step exactly when the dependencies contain a cycle, and the reported step lies on one. |
| Planner.ValidatePlan | axc_agent_engine/planning/planner.py:48-69 | A plan is accepted exactly when its goal is non-empty, its identifiers are positive and unique, its descriptions are non-empty, its dependencies are other steps of the plan, and there is no cycle. Every rejection names a defect the plan has, a cycle error a step that lies on a cycle. |
| Planner.ValidIffRanked | axc_agent_engine/planning/planner.py:72-89 | A well-formed plan is valid exactly when its steps can be ranked with every dependency below. |
| Scheduler.GetStep | axc_agent_engine/planning/scheduler.py:49-53 | The lookup returns the first step with the identifier, or nothing. |
| Scheduler.GetNextSteps | axc_agent_engine/planning/scheduler.py:10-22 | The result is, in plan order, the PENDING steps whose dependencies are all found and DONE. The plan is not changed. |
| Scheduler.GetRemainingCount | axc_agent_engine/planning/scheduler.py:25-28 | The number of PENDING steps. |
| Scheduler.MarkStepDone | axc_agent_engine/planning/scheduler.py:31-37 | The first step with the identifier becomes DONE with the result; nothing else changes, and an unknown identifier changes nothing. |
| Scheduler.MarkStepFailed | axc_agent_engine/planning/scheduler.py:40-46 | The first step with the identifier becomes FAILED with the error; nothing else changes. |
| Scheduler.LookupIsMembership | axc_agent_engine/planning/scheduler.py:49-53 | With unique identifiers the first-match lookup succeeds with DONE exactly for the identifiers of DONE steps. |
| Scheduler.BatchIsIndependent | axc_agent_engine/planning/scheduler.py:10-22 | No two steps selected together depend on each other, nor does one on itself. |
| Scheduler.StuckStepIsBlocked | axc_agent_engine/planning/scheduler.py:10-22 | With nothing running and nothing ready, every PENDING step has a transitive dependency that FAILED or was SKIPPED. |
| Scheduler.StuckExactlyWhenBlocked | axc_agent_engine/planning/scheduler.py:10-22 | In a valid plan with nothing running and nothing ready, a step that is neither FAILED nor SKIPPED is PENDING exactly when some transitive dependency FAILED or was SKIPPED, and DONE otherwise. |
| Scheduler.NothingLostMeansAllDone | axc_agent_engine/planning/scheduler.py:10-22 | If nothing FAILED or was SKIPPED, a valid plan with nothing ready is DONE in every step. |
| Replanner.HeuristicIsFaithful | axc_agent_engine/planning/observer.py:47-57 | Without a model verdict a step is marked FAILED exactly when it was not DONE, and the goal counts as reached exactly when the last remaining step succeeded. A replan is asked for exactly when it failed with steps remaining. |
| Replanner.ReplanPlan | axc_agent_engine/planning/replanner.py:19-54 | An adopted reply keeps the DONE and FAILED steps and appends the new ones; otherwise the PENDING steps that depend on a FAILED one are SKIPPED. The counter goes up by one, or by two when reading the reply raised after the first increment. |
| Replanner.HeuristicSkipsExactly | axc_agent_engine/planning/replanner.py:47-54 | For a reply that is not adopted: a step becomes SKIPPED exactly when it was PENDING and some FAILED step is among its dependencies, every other step is unchanged, and no PENDING step depends directly on a FAILED one afterwards. |
| Replanner.AdoptionReplacesExactly | axc_agent_engine/planning/replanner.py:38-43 | For an adopted reply: exactly the DONE and FAILED steps stay, in front, and the new steps follow in their order, PENDING and with their own fields. |
| Replanner.KeptInOrder | axc_agent_engine/planning/replanner.py:38-38 | What is kept keeps its order. |
| Replanner.UniqueIffFresh | axc_agent_engine/planning/replanner.py:38-43 | An adopted reply keeps identifiers unique exactly when its own are new and distinct, which the code does not check. |
| Replanner.ReplanPreservesDone | axc_agent_engine/planning/replanner.py:37-54 | Every DONE step is still there unchanged, and no step becomes DONE. |
| Replanner.ReplanKeepsQuiescence | axc_agent_engine/planning/replanner.py:37-54 | Replanning keeps: unique identifiers, nothing RUNNING, DONE closed under dependencies. An adopted reply must have fresh identifiers, the heuristic branch needs nothing. |
| ReplanValidity.ValidIffFits | axc_agent_engine/planning/replanner.py:38-43 | An adopted reply leads from a valid plan to a valid plan exactly when its steps fit: new distinct positive identifiers, descriptions, dependencies on other kept or new steps, and no cycle among the new steps. |
| ReplanValidity.WellFormedExactly | axc_agent_engine/planning/replanner.py:38-43 | Apart from cycles, the new plan is well formed exactly when the new steps fit one by one. |
| ReplanValidity.CyclesAreNew | axc_agent_engine/planning/replanner.py:38-43 | Every cycle of a well-formed new plan is one among the new steps: kept steps depend on kept steps. |
| ReplanValidity.ReplanKeepsSettledClosed | axc_agent_engine/planning/replanner.py:37-54 | Both branches of replanning keep that DONE and FAILED steps depend on DONE steps only. |
| StepRunner.RunStep | axc_agent_engine/core/react_kernel.py:111-145 | The bounded sub-loop ends as its turn-by-turn definition says and counts at most `max_rounds` rounds. |
| StepRunner.StepLoopSucceeds | axc_agent_engine/core/react_kernel.py:111-145 | A step succeeds exactly when, within the limit, turns with tool calls lead to a final answer that is not a failure. |
| StepRunner.FirstOtherTurnEnds | axc_agent_engine/core/react_kernel.py:111-145 | The first turn that calls no tools ends the step and says how: its text, whether it went well, and that its round counts unless it was cut short before it began. If all turns call tools the limit ends the step. |
| StepRunner.SharedStepRounds | axc_agent_engine/planning/por_runner.py:61-94 | Running a step on the shared context keeps the total round count at most four above the configured limit. |
| StepRunner.BusyStepUses | axc_agent_engine/planning/por_runner.py:64-70 | A step may use five rounds, and more exactly as long as they are at most a quarter of the configured total and, on the shared context, as many are left; with the total used up it does not run. |
| StepRunner.TotalLimitRespected | axc_agent_engine/planning/por_runner.py:64-70 | The configured total is respected by every behaviour of a step exactly when it is used up already or at least five rounds are left. |
| StepRunner.TotalLimitOverrun | axc_agent_engine/planning/por_runner.py:64-70 | One round before the limit some step overruns it by exactly four. |
| PorMachine.RoundSettlesBatch | axc_agent_engine/planning/por_runner.py:192-234 | Up to the replan node a round leaves every selected step DONE or FAILED with its shape kept, and with unique identifiers touches no other step. |
| PorMachine.VerdictDecides | axc_agent_engine/planning/por_runner.py:287-314 | What a verdict decides for the first step with the identifier: "replan" fails it, "done" settles it by how it went, anything else counts as done, and no verdict follows the execution; no other step changes. When the goal is reached is stated for each case. |
| PorMachine.RoundJudgesBatch | axc_agent_engine/planning/por_runner.py:211-314 | With unique identifiers each selected step becomes, before the replan node, what its own sub-loop and verdict make of it, with their text, whatever the other steps of the batch do. The rounds of a lone step are counted, those of a batch are not. |
| PorMachine.RoundEndsExactly | axc_agent_engine/planning/por_runner.py:192-248 | A round fails exactly on an empty plan, aborts exactly when cancelled, and otherwise finishes exactly when nothing is ready or a step that ran alone reaches the goal: by a verdict, or by succeeding with nothing else PENDING; `should_continue` is set exactly when the run goes on. |
| PorRuns.RoundLowersMeasure | axc_agent_engine/planning/por_runner.py:236-248 | Every round after which the run goes on lowers (replans left, PENDING steps) lexicographically, whatever the environment decides. |
| PorRuns.EveryRunEnds | axc_agent_engine/planning/por_runner.py:192-248 | Every run ends, for all step outcomes, verdicts, replies and cancellations and from every state. |
| PorRuns.RunReachesItsEnd | axc_agent_engine/planning/por_runner.py:192-248 | The recursively defined end of a run is a state that the run reaches after finitely many rounds. |
| PorRuns.RoundsStayBounded | axc_agent_engine/planning/por_runner.py:61-70 | Over whole runs the total round count never falls and never exceeds the limit by more than four. |
| PorRuns.ReplansAreBounded | axc_agent_engine/planning/replanner.py:15-54 | At most MAX_REPLAN_COUNT rounds of a run replan. The counter counts at least those, and may end one above the maximum. |
| PorRuns.RoundOvercountsExactly | axc_agent_engine/planning/replanner.py:37-48 | One round takes the counter above its maximum exactly when it replans with one replan left and reading the reply raises after the first increment. |
| PorRuns.CounterExceedsExactly | axc_agent_engine/planning/replanner.py:15-54 | Over whole runs the counter is above its maximum, and then by one, exactly when some round has taken it there. |
| PorRuns.SettlingKeepsQuiescence | axc_agent_engine/planning/por_runner.py:211-234 | Settling a ready batch and nothing else keeps identifiers unique, nothing RUNNING, and DONE closed under dependencies, and leaves every DONE step as it was. |
| PorRuns.RunIsSafe | axc_agent_engine/planning/por_runner.py:192-314 | At every select point of every run no step is RUNNING, DONE is closed under `depends_on`, identifiers are unique, the same holds of every plan saved so far, and a step once DONE stays unchanged. Adopted replies must have fresh identifiers. |
| PorRuns.RoundIsSafeExactly | axc_agent_engine/planning/por_runner.py:236-248 | A round keeps a quiescent plan quiescent exactly when the reply it adopts, if any, has fresh identifiers. |
| PorRuns.RunIsSafeExactly | axc_agent_engine/planning/por_runner.py:192-314 | Every select point up to the n-th is quiescent if and only if every reply adopted before it had fresh identifiers. |
| PorRuns.FinishedRunIsSafe | axc_agent_engine/planning/por_runner.py:192-314 | The final state of a run has the same properties. |
| PorRuns.HeuristicRunsAreFresh | axc_agent_engine/planning/replanner.py:47-54 | Runs in which no reply is adopted need no freshness hypothesis. |
| PorRuns.DoneIsNeverReexecuted | axc_agent_engine/planning/por_runner.py:192-234 | A step that is DONE at some select point is never selected again. |
| PorRuns.ResultUndoesDone | axc_agent_engine/planning/por_runner.py:287-314 | For every outcome and verdict: handling a result leaves all DONE steps unchanged exactly when the first step carrying the identifier is not DONE, or is marked DONE again with the result it has. |
| PorRuns.RunSkipsAreExplained | axc_agent_engine/planning/replanner.py:47-54 | In a run without adopted replies every step that the run has skipped depends directly on a FAILED step, at every select point. |
| PorRuns.FailureUndoesDone | axc_agent_engine/planning/por_runner.py:287-304 | In particular a step failing without a verdict turns a DONE step FAILED exactly when the first step carrying its identifier is that DONE step. |
| PorRuns.RoundIsValidExactly | axc_agent_engine/planning/por_runner.py:236-248 | From a sound plan (valid, nothing RUNNING, settled steps depending on DONE ones) a round leads to a valid plan exactly when the steps it adopts, if any, fit; the plan is then sound again. |
| PorRuns.RunIsValidExactly | axc_agent_engine/planning/por_runner.py:192-314 | Over whole runs: the plan was valid at every select point so far if and only if all adopted steps so far fitted the plan they were adopted into. |
| PorRuns.RunKeepsValid | axc_agent_engine/planning/por_runner.py:192-314 | As long as adopted steps fit, the plan stays valid, quiescent and closed, and the adopted identifiers are fresh. |
| PorRuns.NewPlanIsSound | axc_agent_engine/planning/planner.py:33-69 | A validated plan whose steps are all PENDING is sound. |
| PorRuns.ExhaustedRunIsExplained | axc_agent_engine/planning/por_runner.py:192-209 | When the select node finds nothing ready the run is finalized, and its plan is explained: apart from FAILED and SKIPPED steps, exactly those with a lost transitive dependency are PENDING and all others DONE. |
| PlanExamples.CounterEndsAtFour | axc_agent_engine/planning/replanner.py:37-48 | A run whose replan counter ends at four. |
| PlanExamples.SelfDependentStepIsStranded | axc_agent_engine/planning/replanner.py:38-43 | A run in which a step that depends on itself is adopted: the plan is not valid any more and the run is finalized with the step PENDING. |
| PlanExamples.UnnumberedStepLetsCompletionThrough | axc_agent_engine/planning/replanner.py:40-42 | A run that adopts a step without identifier, read as 0: the COMPLETED final checkpoint is then the latest. |
| PlanExamples.ReusedIdUndoesDone | axc_agent_engine/planning/replanner.py:38-43 | A run in which an adopted reply uses the identifier of a DONE step again and the failure of the new step turns the DONE step FAILED. |
| PlanExamples.CompletionIsOutranked | axc_agent_engine/planning/por_runner.py:332-375 | A run of one step that succeeds at once, whose COMPLETED final checkpoint is not the latest. |
| PlanExamples.ResumedRunIsHidden | axc_agent_engine/core/executor.py:65-79 | A resumed run that finalizes its plan in round one, while the latest checkpoint is still the one of round three it was resumed from. |
| PlanExamples.ReplanIsOutranked | axc_agent_engine/planning/por_runner.py:253-320 | A batch of two in which the lower identifier failed: the replanned plan is not the latest checkpoint, and the COMPLETED checkpoint of the other step has not ended the run. |
| PorRunner.PORExecution.SelectSteps | axc_agent_engine/planning/por_runner.py:192-209 | The select node does what the transition system says: error on an empty plan, abort on cancellation, the ready batch, or finalization with a saved plan. |
| PorRunner.PORExecution.RunShared | axc_agent_engine/planning/por_runner.py:61-94 | Status, result text and total round count after a step on the shared context. |
| PorRunner.PORExecution.RunIsolated | axc_agent_engine/planning/por_runner.py:96-138 | Status and result text after a step on its own context; the total round count is not touched. |
| PorRunner.PORExecution.HandleStepResult | axc_agent_engine/planning/por_runner.py:287-314 | One result is observed, marked and saved under the number of its round and step, with status COMPLETED exactly when the goal is reached. For each verdict the final status of the first step with the identifier is spelled out. |
| PorRunner.GatheredInAnyOrder | axc_agent_engine/planning/por_runner.py:264-265 | Every interleaving of the writes of a batch of distinct steps, in which each of them ends, leaves the plan that running them one after the other leaves. |
| PorRunner.ReadyBatchIsDistinct | axc_agent_engine/planning/por_runner.py:200-205 | The batches the loop runs have distinct steps. |
| PorRunner.PORExecution.ExecuteParallel | axc_agent_engine/planning/por_runner.py:253-280 | A batch is run first and its results are then handled and saved in plan order. |
| PorRunner.PORExecution.ExecuteStep | axc_agent_engine/planning/por_runner.py:211-228 | The execute node: a single step is saved, then run on the shared context; a batch runs in parallel. |
| PorRunner.PORExecution.ObserveCurrentStep | axc_agent_engine/planning/por_runner.py:230-234 | The observe node handles the single step, and only it. |
| PorRunner.PORExecution.ReplanStep | axc_agent_engine/planning/por_runner.py:236-248 | The replan node: finalization on a reached goal, at most one replan saved under the first failed step, or going on. |
| PorRunner.PORExecution.RunRound | axc_agent_engine/planning/graph_runtime.py:55-79 | One trip around the graph equals one round of the transition system, and the route decision is whether the run is still live. |
| PorRunner.PORExecution.Run | axc_agent_engine/planning/graph_runtime.py:31-52 | Driving the graph terminates for every input stream and ends in the state the theorems speak about. |
| PorRunner.RoundRoutes | axc_agent_engine/planning/graph_runtime.py:67-69 | `should_continue` after a round says exactly whether the run is live. |
| PlanCheckpoint.PlanRoundTrip | axc_agent_engine/planning/checkpointing.py:12-65 | Reading back a written plan gives the plan, for every plan, cursor and phase. |
| PlanCheckpoint.ReadSteps | axc_agent_engine/planning/checkpointing.py:47-64 | The reading loop keeps the objects of the list in order and passes over everything else. |
| PlanCheckpoint.MissingFieldsHaveDefaults | axc_agent_engine/planning/checkpointing.py:48-64 | Whichever fields of a written step are missing, those are read as identifier 0, empty texts and lists and PENDING, and the others as written. |
| PlanCheckpoint.StatusIsReadExactly | axc_agent_engine/planning/checkpointing.py:51-55 | Each status is read from its own text and from nothing else; everything else reads as PENDING. |
| PlanCheckpoint.NoPlanExactly | axc_agent_engine/planning/checkpointing.py:43-46 | There is no plan exactly when the payload or the plan in it is missing or not an object. |
| PlanCheckpoint.ResumePlan | axc_agent_engine/planning/por_runner.py:392-407 | Resuming rebuilds the plan, turns RUNNING steps and the step under the cursor, unless DONE, into PENDING, and keeps the replan counter. |
| PlanCheckpoint.StoredCursorIsNotRead | axc_agent_engine/planning/por_runner.py:402-402 | A checkpoint the engine wrote never yields a cursor on resume, because it is stored one level below the key that is read. |
| PlanCheckpoint.CursorMattersExactlyWhenLost | axc_agent_engine/planning/por_runner.py:403-407 | The missed cursor changes the resumed plan exactly when the current step had FAILED or been SKIPPED. |
| PlanCheckpoint.MissedCursorLeavesStepFailed | axc_agent_engine/planning/por_runner.py:402-407 | A written checkpoint whose current step stays FAILED on resume, where its cursor would have made it PENDING. |
| PlanCheckpoint.CursorTextIsRead | axc_agent_engine/planning/por_runner.py:427-433 | A cursor given as a number or as its decimal text is the same cursor. |
| PlanCheckpoint.SignedTextIsRead | axc_agent_engine/planning/por_runner.py:427-433 | A decimal text is read as its number with a sign in front and any space around it. |
| PlanCheckpoint.FractionsAreCut | axc_agent_engine/planning/por_runner.py:427-433 | A fraction is cut off towards zero, and truth values count as 1 and 0. |
| PlanCheckpoint.ResumeIsQuiescent | axc_agent_engine/planning/por_runner.py:403-407 | Resuming keeps the DONE steps, keeps validity, and gives a plan with nothing RUNNING and DONE closed under dependencies. |
| PlanCheckpoint.ResumeKeepsSound | axc_agent_engine/planning/por_runner.py:403-407 | A sound plan is resumed as a sound plan. |
| PlanCheckpoint.ResumedRunSkipsDone | axc_agent_engine/planning/por_runner.py:392-424 | No run resumed from a plan that a run saved executes a step that is DONE in it. |
| CheckpointStore.InMemoryCheckpointStore.Save | axc_agent_engine/runtime/checkpoint.py:79-90 | A save is refused exactly for an empty run id. Otherwise it is added to its run's history, the run moves to the end, and exactly the last `max_runs` runs stay, the saved one among them, with their histories. |
| CheckpointStore.InMemoryCheckpointStore.Latest | axc_agent_engine/runtime/checkpoint.py:92-98 | The result is the greatest save of the run by sequence and arrival; asking moves the run to the end. |
| CheckpointStore.InMemoryCheckpointStore.List | axc_agent_engine/runtime/checkpoint.py:100-105 | The result is the kept part of the run's history. |
| CheckpointStore.InMemoryCheckpointStore.DeleteRun | axc_agent_engine/runtime/checkpoint.py:121-123 | The run and its history are gone, the others are untouched. |
| CheckpointStore.KeptStep | axc_agent_engine/runtime/checkpoint.py:83-86 | Appending to the kept list, sorting it stably and truncating it keeps the greatest of the whole history. |
| CheckpointStore.KeptAreGreatest | axc_agent_engine/runtime/checkpoint.py:83-86 | The kept list has min(k, n) elements, is sorted, and nothing dropped has a greater sequence or, with an equal one, arrived later. |
| CheckpointStore.LatestIsKeptLast | axc_agent_engine/runtime/checkpoint.py:92-98 | The last kept checkpoint is the greatest of the history: none has a greater sequence, none with the same arrived later. |
| CheckpointStore.OrderIsByLastUse | axc_agent_engine/runtime/checkpoint.py:79-98 | After any uses the order lists exactly the runs used, the one used last at the end and each before those used after it. |
| CheckpointStore.MostRecentStay | axc_agent_engine/runtime/checkpoint.py:87-90 | Dropping runs from the front along the way leaves the end of the order that drops none. |
| CheckpointStore.KeptRunsAreMostRecent | axc_agent_engine/runtime/checkpoint.py:87-90 | Once a run has been dropped exactly `max_runs` are kept, and none of them was last used before one that was dropped. |
| RunCheckpoints.RoundSaves | axc_agent_engine/planning/por_runner.py:211-234 | What a round saves before the replan node, and under which numbers. |
| RunCheckpoints.FirstFailedIsInBatch | axc_agent_engine/planning/por_runner.py:316-320 | The identifier a replan is saved under is that of the first FAILED step of the batch. |
| RunCheckpoints.NumbersDifferExactly | axc_agent_engine/planning/por_runner.py:362-362 | Checkpoints of different rounds and steps have different numbers exactly as long as the identifiers stay below 1000. |
| RunCheckpoints.FinalSaveIsLatestExactly | axc_agent_engine/planning/por_runner.py:332-375 | For all identifiers and every state: the COMPLETED final checkpoint is the latest exactly when no earlier round outranks it and no step of the last round has a positive identifier. |
| RunCheckpoints.FittingRunIsPositive | axc_agent_engine/planning/por_runner.py:192-314 | A run from a sound plan whose adopted steps fit has positive identifiers throughout. |
| RunCheckpoints.CompletionIsLatestExactly | axc_agent_engine/planning/por_runner.py:332-375 | The COMPLETED checkpoint of a finalized run is the one `latest` returns exactly when the run had nothing to do and nothing saved before outranks it, if identifiers are positive throughout. In every other run a checkpoint numbered with a step of the last round does. |
| RunCheckpoints.ReplanIsLatestExactly | axc_agent_engine/planning/por_runner.py:316-320 | The replanned plan is the latest checkpoint exactly when no earlier round outranks it and the failed step has the greatest identifier of its batch; otherwise a resume goes back behind the replan. |
| RunCheckpoints.StepIsLatestExactly | axc_agent_engine/planning/por_runner.py:211-234 | For all identifiers and every state, a step that ran alone leaves its own checkpoint as the latest exactly when nothing saved before its round outranks it. |
| RunCheckpoints.SerialStepIsLatestExactly | axc_agent_engine/planning/por_runner.py:353-375 | Over whole runs with identifiers below 1000, resumed ones included: after a step that ran alone and used a round, its checkpoint, and that of a replan after it, is the latest exactly when no save from before the run outranks it. |
| RunCheckpoints.OldSavesStayLatestExactly | axc_agent_engine/core/executor.py:65-79 | After a resume the store goes on returning a checkpoint of the first run exactly as long as one of them outranks everything saved since. |
| RunCheckpoints.ResumedRunStaysHidden | axc_agent_engine/core/executor.py:65-79 | A resumed run counts its rounds from zero again, so until it reaches the round of an earlier save the store returns an earlier checkpoint. |
| RunCheckpoints.CompletedStepEndsExactlyWhenAlone | axc_agent_engine/planning/por_runner.py:230-248 | A COMPLETED checkpoint of a step ends the run exactly when the step ran alone. |
| RunCheckpoints.BatchSavesCompletedExactly | axc_agent_engine/planning/por_runner.py:287-314 | Without a verdict a result of a batch is saved as COMPLETED exactly when its step succeeded and nothing outside the batch is PENDING. |
| ToolBatches.PartitionToolCalls | axc_agent_engine/tools/batches.py:8-23 | The batches hold the calls in order. A batch is concurrent exactly when every name in it is registered as read-only, a call that is not registered or registered as writing is alone in a serial batch, and no two concurrent batches follow each other. |
| ToolBatches.PartitionIsUnique | axc_agent_engine/tools/batches.py:8-23 | These facts determine the partition. |
| ToolBatches.RegistryDecides | axc_agent_engine/tools/batches.py:8-23 | The shape of the batches in terms of the registry alone. |
| ToolBatches.InterleavingIsInvisible | axc_agent_engine/tools/orchestrator.py:43-45 | Under every schedule a read-only call is as far as it would be alone, and the world is unchanged. |
| ToolBatches.ConcurrentAgreesWithSerial | axc_agent_engine/tools/orchestrator.py:43-45 | Every schedule that lets all read-only calls finish gives the results, in call order, and the world of running them one by one. |
| ToolBatches.WritersLoseUpdates | axc_agent_engine/tools/orchestrator.py:46-49 | Two writing calls interleaved can lose an update ... |
| ToolBatches.WritersSerially | axc_agent_engine/tools/orchestrator.py:46-49 | ... which running them one after the other does not. |
| ToolBatches.RunBatch | axc_agent_engine/tools/orchestrator.py:41-49 | One batch, under every fair schedule, acts as its calls run one by one. |
| ToolBatches.ExecutePipeline | axc_agent_engine/tools/orchestrator.py:37-50 | The whole pipeline returns the results, in call order, and the final world of running all calls one by one, if every tool that the registry lists as read-only leaves the world as it is. |
| SessionGate.SessionExecutionGate.GetEntry | axc_agent_engine/runtime/concurrency.py:98-105 | The session's entry is found or created with a new semaphore, and counted up. |
| SessionGate.SessionExecutionGate.ReleaseEntry | axc_agent_engine/runtime/concurrency.py:107-114 | The entry is counted down and dropped when nobody is left; an unknown session changes nothing. |
| SessionGate.RunKeepsInv | axc_agent_engine/runtime/concurrency.py:74-114 | The invariant between dictionary, semaphores and tasks holds after every sequence of enter, acquire, timeout or cancel, finish and leave events. |
| SessionGate.HoldersAreLimited | axc_agent_engine/runtime/concurrency.py:74-96 | At most `max_per_session` tasks of a session are inside at once. |
| SessionGate.BypassedExactly | axc_agent_engine/runtime/concurrency.py:74-86 | Over every run: a task inside bypasses the gate exactly when the session it entered with, read from the events, is empty or the limit is not positive. |
| SessionGate.InBodyAreLimited | axc_agent_engine/runtime/concurrency.py:74-96 | Over every run with a positive limit: the tasks inside the body with a non-empty session, whether they hold a permit or bypass the gate, number at most the limit. |
| SessionGate.BypassingLeavesTheGate | axc_agent_engine/runtime/concurrency.py:76-79 | Entering or leaving by a bypass changes neither dictionary nor permits. |
| SessionGate.InsideCanFinish | axc_agent_engine/runtime/concurrency.py:80-96 | Every task inside can finish; one that holds a permit returns it and can then leave. |
| SessionGate.OneSemaphorePerSession | axc_agent_engine/runtime/concurrency.py:98-114 | Two tasks that wait for or hold the same session do so on the same semaphore. |
| SessionGate.EntriesCountTasks | axc_agent_engine/runtime/concurrency.py:98-114 | An entry exists exactly while some task uses its session, and its count is the number of these tasks. |
| SessionGate.EmptyWhenAllLeft | axc_agent_engine/runtime/concurrency.py:107-114 | Once all tasks have left, the dictionary is empty. |
| SessionGate.WaiterBlockedOnlyByHolders | axc_agent_engine/runtime/concurrency.py:74-96 | No permit is lost: a waiting task can go on exactly when fewer than the limit hold its session. |
| RateLimiter.RequestLimiter.AcquireOnce | axc_agent_engine/runtime/concurrency.py:142-159 | One pass of the loop: which times are popped, whether the grant is given, how long to sleep, and when to give up. |
| RateLimiter.RunsKeepInv | axc_agent_engine/runtime/concurrency.py:142-159 | Over every run with a clock that does not go back, the deque is the suffix of the grants not yet expired at the last check. |
| RateLimiter.GrantsAreSpaced | axc_agent_engine/runtime/concurrency.py:148-153 | Grants `rpm` places apart are at least sixty seconds apart. |
| RateLimiter.GrantedExactlyBelowTheLimit | axc_agent_engine/runtime/concurrency.py:146-153 | Over every run, a caller is granted exactly when fewer than `rpm` grants were given in the sixty seconds up to now. |
| RateLimiter.EveryMinuteIsLimited | axc_agent_engine/runtime/concurrency.py:148-153 | Every half-open minute contains at most `rpm` grants. |
| RateLimiter.SleepIsExact | axc_agent_engine/runtime/concurrency.py:154-159 | A refused caller is granted at a later time exactly when it has slept at least the computed time, if nobody else is granted meanwhile. |
| PluginLoader.ValidateDependencies | axc_agent_engine/plugins/loader.py:85-114 | Sorting succeeds exactly when all dependencies are loaded and acyclic; the result is a permutation in greedy order; a missing dependency is named; the leftovers of a cycle each wait for another; a pre-sorted list without dependencies is left as it is. |
| PluginLoader.GreedyIsTopological | axc_agent_engine/plugins/loader.py:103-110 | A greedy order lists each name once and every plugin after all its dependencies. |
| PluginLoader.EmittedAllIsAcyclic | axc_agent_engine/plugins/loader.py:111-114 | If all names are emitted there is no cycle. |
| PluginLoader.StuckIsCyclic | axc_agent_engine/plugins/loader.py:111-113 | If nothing is ready but names are left, there is a cycle. |
| PluginLoader.BuildGraph | axc_agent_engine/plugins/loader.py:91-100 | Degrees count the entries of `depends_on`, repeated ones included, and the graph holds a dependent as often as it lists the dependency. |
| PluginLoader.ReleaseDependents | axc_agent_engine/plugins/loader.py:107-110 | Each dependent's degree falls by its occurrences, and exactly those that reach zero join the queue. |
| PluginLoader.HeadIsLeast | axc_agent_engine/plugins/loader.py:104-105 | The head of the sorted queue is a plugin of least (phase, priority) among the ready ones. |
| PluginLoader.KeysAreInPlainWords | axc_agent_engine/plugins/loader.py:51-57 | The sort key in plain words: "pre" before everything else, "post" after, an unknown phase as "core", and priorities ascending within a phase. |
| PluginLoader.GreedyInPlainWords | axc_agent_engine/plugins/loader.py:103-110 | A greedy order in plain words: each plugin comes after its dependencies, and when it was emitted no plugin whose dependencies were all there had to come before it by phase and priority. |
| PluginLoader.PlainOrder | axc_agent_engine/plugins/loader.py:45-48 | Without dependencies: no plugin comes before a "pre" one unless it is "pre" itself, none after a "post" one unless it is "post" itself, and within a phase priorities ascend. |
| PluginLoader.EmitNext | axc_agent_engine/plugins/loader.py:103-110 | One pass of the loop keeps: the queue holds exactly the ready names, the degrees count the open dependencies. |
| PluginLoader.OrderPlugins | axc_agent_engine/plugins/loader.py:45-48 | Stable pre-sort and dependency sort together: the result is a permutation in greedy order, and without dependencies the stable sort by (phase, priority). Both are also stated in phase names and priorities. |
| StableSorting.StableSortIsSorted | axc_agent_engine/plugins/loader.py:45-45 | The sort gives an ordered permutation ... |
| StableSorting.StableSortIsStable | axc_agent_engine/plugins/loader.py:45-45 | ... in which equal keys keep their order. |
| JsonScanner.ExtractBalanced | axc_agent_engine/utils/json_utils.py:53-79 | The result is the shortest text from the first opening bracket on that closes the scan, and empty when no such text exists. |
| JsonScanner.ExtractsOneText | axc_agent_engine/utils/json_utils.py:53-79 | That describes exactly one result. |
| JsonScanner.FeedCounts | axc_agent_engine/utils/json_utils.py:57-78 | After any text the scanner is closed exactly if some bracket has closed the level before, and otherwise knows the level, whether the number of unescaped quotes is odd, and whether the run of backslashes at the end is. |
| JsonScanner.ExtractedIsBalanced | axc_agent_engine/utils/json_utils.py:53-79 | What is extracted begins with the opening bracket and is balanced, strings and escapes aside, and no shorter beginning of it is. |
| JsonScanner.PiecesAreWritten | axc_agent_engine/utils/json_utils.py:53-79 | A string of the JSON grammar is written piece by piece, |
| JsonScanner.ItemsAreWritten | axc_agent_engine/utils/json_utils.py:53-79 | an array as its items separated by commas, |
| JsonScanner.MembersAreWritten | axc_agent_engine/utils/json_utils.py:53-79 | and an object as strings, colons and values separated by commas: `JsonScanner.FindsTheJson` speaks of all these texts. |
| JsonScanner.ValueNeutral | axc_agent_engine/utils/json_utils.py:64-78 | Every JSON value inside an open bracket leaves depth and string state as they were, escaped quotes, `\u` escapes and brackets inside strings included. |
| JsonScanner.FindsTheJson | axc_agent_engine/utils/json_utils.py:53-79 | For a prefix without the opening bracket, any JSON array or object text and any suffix, the result is exactly that JSON text. |
| JsonScanner.FoundExactlyAtFirstBracket | axc_agent_engine/utils/json_utils.py:53-79 | For every text, a JSON text is the result exactly when it stands at the first opening bracket. |
| JsonScanner.CutTextIsNotFound | axc_agent_engine/utils/json_utils.py:53-79 | A JSON text cut short, anywhere, gives the empty result. |
| JsonScanner.EarlierBracketHides | axc_agent_engine/utils/json_utils.py:54-54 | The hypothesis on the prefix is needed: an earlier opening bracket hides the text behind it. |
| StreamMessages.CallsAreAssembled | axc_agent_engine/core/stream_aggregator.py:107-120 | However fragments interleave, a call exists exactly if its index occurs, its arguments are its own fragments joined in order, its id and name the last non-empty ones. |
| StreamMessages.ListingIgnoresArrival | axc_agent_engine/core/stream_aggregator.py:88-92 | The list of calls is ordered by index, whatever the order of arrival. |
| StreamMessages.CallsStandByIndex | axc_agent_engine/core/stream_aggregator.py:88-92 | The message has one call for each index that occurs, and the call of an index stands behind those of all smaller ones: its place is the number of smaller indices. |
| StreamMessages.UsageAddsUp | axc_agent_engine/core/stream_aggregator.py:70-75 | The usage of a stream is that of its parts: counts add up, and later metadata replaces earlier metadata under the same key. |
| StreamMessages.UsageOfOne | axc_agent_engine/core/stream_aggregator.py:70-75 | A chunk by itself has the usage it carries, or none. |
| StreamMessages.ReadsExactly | axc_agent_engine/core/stream_aggregator.py:46-53 | Reading goes on exactly as long as fewer than 20000 chunks and fewer than 512000 characters of content have been read. |
| StreamMessages.RechunkingIsInvisible | axc_agent_engine/core/stream_aggregator.py:55-102 | Chunk borders and the order in which fragments of different calls arrive do not show in the message, if texts, calls and total usage are the same. |
| StreamMessages.ReadingIsBounded | axc_agent_engine/core/stream_aggregator.py:46-53 | At most 20000 chunks are read, and only the last of them can carry the content over 512000 characters. |
| StreamMessages.DeltasTellTheMessage | axc_agent_engine/core/stream_aggregator.py:55-86 | The callback is told exactly the content and the thinking of the message, and never an empty piece of either. |
| StreamAggregator.StreamAggregateState.MergeChunk | axc_agent_engine/core/stream_aggregator.py:55-75 | Merging a chunk keeps all lists, counters, token counts and metadata those of the chunks so far and tells the callback its deltas in order. |
| StreamAggregator.StreamAggregateState.MergeToolDelta | axc_agent_engine/core/stream_aggregator.py:77-86 | Single and listed fragments are merged one by one, with a preview after each. |
| StreamAggregator.StreamAggregateState.MergeToolCall | axc_agent_engine/core/stream_aggregator.py:107-120 | One fragment updates the entry of its index and no other. |
| StreamAggregator.StreamAggregateState.LimitExceeded | axc_agent_engine/core/stream_aggregator.py:46-53 | A limit is reported exactly when it is reached, and marks the message as partial. |
| StreamAggregator.StreamAggregateState.BuildMessage | axc_agent_engine/core/stream_aggregator.py:88-102 | The message the merged chunks stand for, with its token counts and metadata. |
| StreamAggregator.OutcomeExactly | axc_agent_engine/core/stream_aggregator.py:128-153 | An attempt ends with a message exactly when a limit was reached, the stream ended, or it fell silent after content or tool calls; the message is partial unless the stream ended by itself; a failure can be retried exactly when the exception says so. |
| StreamAggregator.Aggregate | axc_agent_engine/core/stream_aggregator.py:128-153 | The loop reads up to the limit or the end, returns a partial message on an idle timeout with content or tool calls, fails without, and passes exceptions on; the callback hears the deltas of what was read. |
| StreamEvents.StreamEventEmitter.OnDelta | axc_agent_engine/core/llm_caller.py:46-90 | Which events a delta causes, and how the bracket state and the flag of the execution change. |
| StreamEvents.StreamEventEmitter.FinishThinking | axc_agent_engine/core/llm_caller.py:54-57 | Open thinking is closed at the end. |
| StreamEvents.DeliversWhatItHears | axc_agent_engine/core/llm_caller.py:67-77 | A new emitter over a sink that has delivered nothing delivers one STREAM_START and then exactly the content it hears. |
| StreamEvents.ThinksWhatItHears | axc_agent_engine/core/llm_caller.py:59-77 | Thinking events are bracketed START DELTA+ END with no text delivered inside, and show the thinking heard. |
| StreamEvents.HeardAllAfter | axc_agent_engine/core/llm_caller.py:35-90 | What an attempt emits does not depend on what its sink held before. |
| StreamEvents.OpenThinkingStaysOpen | axc_agent_engine/core/llm_caller.py:59-77 | An attempt that begins while earlier thinking is still open never closes it. |
| StreamEvents.ShowsPreviewsItHears | axc_agent_engine/core/llm_caller.py:79-90 | Every preview of a tool call that is heard is shown once and in order: to the sink, or in the list kept when there is none. |
| StreamEvents.CallsArePreviewed | axc_agent_engine/core/stream_aggregator.py:77-86 | The previews told for a stream: one for each fragment, in order, showing the call as its own fragments so far spell it out. |
| StreamCalls.AggregateStream | axc_agent_engine/core/llm_caller.py:214-239 | One attempt through aggregator and emitter. |
| StreamCalls.CallWithRetry | axc_agent_engine/core/llm_caller.py:192-212 | Two attempts on the primary model and one on the fallback, each only if the one before failed in a retryable way and no content has been emitted. |
| StreamCalls.TextOfOneAttempt | axc_agent_engine/core/llm_caller.py:192-239 | Whatever happens, a listener gets one STREAM_START and the content of one single attempt, the deciding one, or no text; an answered call delivers exactly the answer's content. No hypothesis on the flag at entry is needed. |
| StreamCalls.CallEndsAsDecided | axc_agent_engine/core/llm_caller.py:192-212 | A call ends the way its deciding attempt does, except that a failure that could be retried interrupts it when content has been delivered, unless it was the fallback that failed. |
| StreamCalls.AttemptShowsItsCalls | axc_agent_engine/core/llm_caller.py:214-239 | An attempt shows one preview for each fragment of a tool call it reads, and an answer without content closes its thinking with all of it. |
| StreamCalls.BracketsCloseExactlyWhenRetriesAreQuiet | axc_agent_engine/core/llm_caller.py:192-239 | Over a whole answered call thinking is properly bracketed exactly when no failed attempt had begun to think; it then shows the answer's thinking. |
| StreamCalls.DecidingAttemptStandsAlone | axc_agent_engine/core/llm_caller.py:192-239 | A call shows the events of its attempts one after the other; in every answered call those of the deciding attempt, by themselves, bracket exactly the answer's thinking and deliver exactly its content. |
| StreamCalls.DroppedThinkingIsNeverClosed | axc_agent_engine/core/llm_caller.py:214-225 | A concrete call in which the brackets stay open. |
| StreamCalls.EventsSayTheSame | axc_agent_engine/core/llm_caller.py:226-239 | Without a sink the returned events deliver the same content and thinking. |
| ArtifactStore.InMemoryArtifactStore.DeleteUnlocked | axc_agent_engine/storage/artifact_store.py:364-367 | The entry is gone and exactly its bytes come off the counter: the clamp at 0 never acts. |
| ArtifactStore.InlineIsHeldContent | axc_agent_engine/storage/artifact_store.py:364-367 | An entry weighs the bytes of the content it holds: the UTF-8 length of a text, the length of bytes, nothing for a file. |
| ArtifactStore.InMemoryArtifactStore.EvictExpired | axc_agent_engine/storage/artifact_store.py:346-349 | Exactly the expired entries go; durable ones stay. |
| ArtifactStore.InMemoryArtifactStore.DeleteRun | axc_agent_engine/storage/artifact_store.py:239-243 | Exactly the run's entries that are not durable go. |
| ArtifactStore.InMemoryArtifactStore.DeleteOldestNonDurable | axc_agent_engine/storage/artifact_store.py:357-362 | The least recently used entry that is not durable goes; if all are durable nothing changes. |
| ArtifactStore.InMemoryArtifactStore.EvictToLimits | axc_agent_engine/storage/artifact_store.py:351-355 | Eviction ends with both limits met, having dropped the fewest possible entries, oldest first and no durable one. |
| ArtifactStore.EvictsOnlyWhatItMust | axc_agent_engine/storage/artifact_store.py:351-355 | Nothing is evicted exactly when both limits are met, a limit that is not positive being none, and what was evicted last went from a list that exceeded one. |
| ArtifactStore.EvictionEndsExactlyWhenDurableFit | axc_agent_engine/storage/artifact_store.py:351-362 | Some number of evictions meets the limits if and only if the durable entries alone do; otherwise a loop guard holds forever. |
| ArtifactStore.PinnedEntriesBlockEviction | axc_agent_engine/storage/artifact_store.py:351-362 | Two durable entries under a limit of one: no number of evictions is enough. |
| ArtifactStore.SkippingSplits | axc_agent_engine/storage/artifact_store.py:357-362 | Dropping the k oldest leaves the durable entries as they are and the others without their k oldest. |
| ArtifactStore.NewcomerSurvives | axc_agent_engine/storage/artifact_store.py:264-272 | A new entry survives its own arrival exactly when it is durable or there is room for it beside the durable ones. |
| ArtifactStore.InMemoryArtifactStore.PutEntry | axc_agent_engine/storage/artifact_store.py:264-272 | Expired entries go, the entry becomes the most recently used, the limits are enforced; the counter is exact unless an identifier is reused, and then too high by exactly the bytes replaced. |
| ArtifactStore.InMemoryArtifactStore.PutText | axc_agent_engine/storage/artifact_store.py:120-141 | A text entry's size is its UTF-8 length, and its expiry follows the durable flag, the given time or the default. |
| ArtifactStore.InMemoryArtifactStore.Lookup | axc_agent_engine/storage/artifact_store.py:302-312 | A live entry becomes the most recently used, an expired one is deleted, and the rest is untouched. |
| ArtifactStore.InMemoryArtifactStore.ReadArtifact | axc_agent_engine/storage/artifact_store.py:189-206 | Reading a piece of a text, byte or file artifact: the piece and the end mark of a live one, an empty text for a missing or expired one. |
| ArtifactStore.InMemoryArtifactStore.Gc | axc_agent_engine/storage/artifact_store.py:245-250 | Garbage collection removes expired entries, enforces the limits, and reports the number removed. |
| ArtifactPaging.FollowingCollectsTheText | axc_agent_engine/storage/artifact_store.py:189-206 | Following `next_offset` from 0 collects the whole text exactly when every piece but the last is ASCII; then it takes as many reads as there are pieces. |
| ArtifactPaging.FollowingEndsExactly | axc_agent_engine/storage/artifact_store.py:189-206 | Following `next_offset` from 0 comes to an end exactly when every piece but the last is ASCII: it collects the whole text or it never ends. |
| ArtifactPaging.NeverFinishes | axc_agent_engine/storage/artifact_store.py:189-206 | Once a character of more than one byte lies behind, the reader never finishes. |
| ArtifactPaging.AsciiHasAsciiPieces | axc_agent_engine/storage/artifact_store.py:189-206 | ASCII text meets that condition for every limit. |
| ArtifactPaging.PageCountIsCeiling | axc_agent_engine/storage/artifact_store.py:189-206 | The number of pieces is the length divided by the limit, rounded up. |
| ArtifactPaging.ReadShows | axc_agent_engine/storage/artifact_store.py:189-206 | One read of a text, in terms of its characters: piece, size, end mark and next offset, for all offsets and limits. |
| ArtifactPaging.ReadBytesShows | axc_agent_engine/storage/artifact_store.py:314-323 | The same for bytes, whose piece is decoded. |
| ArtifactPaging.FollowingBytesCollects | axc_agent_engine/storage/artifact_store.py:189-206 | Following `next_offset` through bytes collects every piece once if each piece but the last decodes to a text of its own length in bytes and the last to one at least as long. |
| ArtifactPaging.AsciiBytesFit | axc_agent_engine/storage/artifact_store.py:189-206 | Bytes that decode to one ASCII character each meet that condition for every limit, and what is collected is all of them decoded. |
| ArtifactPaging.WidthIsShortest | axc_agent_engine/storage/artifact_store.py:189-206 | A character counts as many bytes as its shortest UTF-8 form has. |
| ArtifactPaging.StuckBehindTheEnd | axc_agent_engine/storage/artifact_store.py:197-206 | An offset behind the characters but not behind the bytes is its own next offset: following never ends. |
| ArtifactPaging.FollowingCanRunForever | axc_agent_engine/storage/artifact_store.py:197-206 | A concrete text of two characters on which it never ends. |
| ArtifactPaging.PagesAreTheText | axc_agent_engine/storage/artifact_store.py:208-211 | Consecutive numbered pages are consecutive pieces of the text, whatever its characters. |
| ArtifactPaging.LastPageIsMarked | axc_agent_engine/storage/artifact_store.py:197-206 | A page is marked as the last exactly when it reaches the end and all text before it is ASCII. |
| ToolNames.SanitizedIsClean | axc_agent_engine/tools/name_mapping.py:66-76 | Every cleaned-up name has 1 to 64 safe characters, no underscore at an end and no two in a row. |
| ToolNames.SanitizeFixesCleanNames | axc_agent_engine/tools/name_mapping.py:66-76 | Cleaning up leaves a name alone exactly when it is clean, hence twice is once. |
| ToolNames.PlainNamesStay | axc_agent_engine/tools/name_mapping.py:66-76 | The names left alone are exactly those of 1 to 64 letters, digits, hyphens and single underscores between them. |
| ToolNames.SanitizeSpellsTheName | axc_agent_engine/tools/name_mapping.py:66-76 | No character is invented, lost or reordered: the alias spells the kept characters of the name, a beginning of them when cut, and "tool" when there are none. |
| ToolNames.AliasMatches | axc_agent_engine/tools/name_mapping.py:37-43 | Every alias that can be chosen matches the pattern, so the pattern error cannot occur. |
| ToolNames.NewNamesGet | axc_agent_engine/tools/name_mapping.py:37-63 | A new name gets its cleaned-up form exactly when no other name has that; otherwise it is refused, or gets at most 57 characters of that form with the six digits of its hash behind an underscore. |
| ToolNames.EncodeStep | axc_agent_engine/tools/name_mapping.py:37-49 | Aliases are stable; a mapping that decodes all its aliases goes on doing so exactly when the chosen alias is not owned by another name. |
| ToolNames.RoundTripExactlyWithoutClash | axc_agent_engine/tools/name_mapping.py:37-63 | After any registrations, every alias decodes to its name if and only if no registration took an alias already owned. |
| ToolNames.AliasesAreDistinct | axc_agent_engine/tools/name_mapping.py:37-49 | Distinct names then have distinct aliases. |
| ToolNames.HashedAliasCanClash | axc_agent_engine/tools/name_mapping.py:55-63 | A name that looks like another one's hashed alias loses its own alias to it. |
| ToolNames.ToolNameMapper.EncodeName | axc_agent_engine/tools/name_mapping.py:37-46 | A known name keeps its alias and changes nothing; a new alias matches the pattern and decodes to its name; refusal changes nothing. Both dictionaries are those the theorems speak of. |
| ToolNames.ToolNameMapper.DecodeName | axc_agent_engine/tools/name_mapping.py:48-49 | A text that is no alias comes back as it is, an alias as a registered name that uses it; where all aliases decode, no other name uses it. |
| ToolNames.ToolNameMapper.Clear | axc_agent_engine/tools/name_mapping.py:51-53 | Both dictionaries are emptied. |
| WorldStates.FactsAfter | axc_agent_engine/sidecar/simulation/models.py:99-104 | On facts without duplicates a change removes and adds exactly what it says, additions last, and leaves no duplicates. |
| WorldStates.FactsHoldExactly | axc_agent_engine/sidecar/simulation/models.py:99-104 | For every list of facts: a fact holds after a change exactly when it is added or was there more often than it is removed. |
| WorldStates.RemovesFirstExactly | axc_agent_engine/sidecar/simulation/models.py:99-101 | Removing takes out the first occurrence and nothing else. |
| WorldStates.AddsInOrder | axc_agent_engine/sidecar/simulation/models.py:102-104 | Additions come behind the facts there were, each new one once and in the order given. |
| WorldStates.ChangesAreTaken | axc_agent_engine/sidecar/simulation/models.py:105-111 | A change of variables, resources, risks, artifacts and metadata gives each changed key its new value and leaves every other key alone; events are appended in order and one step is counted. |
| WorldStates.DuplicatesSurviveRemoval | axc_agent_engine/sidecar/simulation/models.py:99-101 | With duplicates a removed fact may stay. |
| WorldStates.WorldState.ApplyDelta | axc_agent_engine/sidecar/simulation/models.py:93-112 | The object after a change. |
| WorldStates.WorldState.Clone | axc_agent_engine/sidecar/simulation/models.py:84-91 | A new object with the same value. |
| Simulation.SimulationRunner.Run | axc_agent_engine/sidecar/simulation/runner.py:204-278 | On a scenario that ends, the report is the one the transition rules determine, and the initial world is not changed. |
| Simulation.SimulationRunner.TakeTurnsOf | axc_agent_engine/sidecar/simulation/runner.py:235-278 | The inner loop over the selected actors. |
| Simulation.RunsAreReplayable | axc_agent_engine/sidecar/simulation/runner.py:217-278 | At every point of every run: replaying the timeline gives the world, step k is numbered k + 1, saw the world of the first k changes and records what came of the k-th turn, the world's step grew by the number of steps, which stays within `max_steps`, and facts stay free of duplicates. |
| Simulation.ReportsReplay | axc_agent_engine/sidecar/simulation/runner.py:45-278 | The same for every report, whose final world step counts its steps and which is a success exactly when its last step is scored one. |
| Simulation.ActorsSeeTheWorld | axc_agent_engine/sidecar/simulation/defaults.py:32-43 | Every actor saw the world as it was before its step, the facts in it, and the private facts of the first profile with its name. |
| Simulation.RoundRobinGoesRound | axc_agent_engine/sidecar/simulation/defaults.py:134-137 | Under round robin step k is taken by the actor at place k modulo the number of actors. |
| Simulation.AllActorsGoRound | axc_agent_engine/sidecar/simulation/defaults.py:147-148 | With all actors selected, those with a policy take turns in the scenario's order. |
| Simulation.EndingsAreEarned | axc_agent_engine/sidecar/simulation/runner.py:204-278 | Why a run ended: no profiles and no policies, an empty selection, the step limit, or a turn that raised. |
| Simulation.OneReport | axc_agent_engine/sidecar/simulation/runner.py:204-278 | A run has one outcome. |
| Simulation.ActorsByProfile | axc_agent_engine/sidecar/simulation/runner.py:209-211 | The actors are the scenario's profiles in order, or whoever has a policy when it names none. |
| Simulation.EndsExactlyUnlessStarved | axc_agent_engine/sidecar/simulation/runner.py:217-278 | For every selector a run ends exactly when it never comes to a selection that is not empty and in which nobody has a policy. |
| Simulation.ActingSelectionsEnd | axc_agent_engine/sidecar/simulation/runner.py:217-278 | If every selection is empty or has an actor with a policy, every run ends. |
| Simulation.RoundRobinEndsExactly | axc_agent_engine/sidecar/simulation/defaults.py:134-137 | Under round robin a run ends exactly when it never comes to an actor without a policy. |
| Simulation.ActorWithoutPolicyRunsForever | axc_agent_engine/sidecar/simulation/runner.py:235-238 | One actor and no policy: the run never ends. |
| Simulation.AllActorsEndsExactly | axc_agent_engine/sidecar/simulation/defaults.py:147-148 | With all actors selected a run ends exactly when no step is asked for or some actor has a policy. |

## Left out

- The ReAct main loop, prompts, messages, event payloads, audit, tracing, hooks and token usage: payload, or one counter compared with one limit.
- Exceptions raised by plugin hooks or by finalization in the middle of a node of the planning graph; cancellation is modelled where the select node checks for it, and inside steps as a failed step.
- The steps of a parallel batch are run one after the other in `PorRunner.PORExecution.ExecuteParallel`; `PorRunner.GatheredInAnyOrder` says that no interleaving gives another plan. Cancellation while they are gathered is not modelled.
- Observer actions other than "replan" and "done" are one case, because the code treats them as one; the texts of prompts and of the skip message are constants.
- Checkpoint texts and lists of a type that is never written: the code turns them into text or raises, the model answers `Foreign` and `PlanCheckpoint.ResumePlan` then returns no plan. Numbers are read as the code reads them, except digits and spaces outside ASCII.
- PorRuns.RunIsSafe: asks adopted replies for fresh identifiers, because the code adopts any reply and the property is then false; `PorRuns.RunIsSafeExactly` gives both directions.
- Checkpoints of other kinds saved under the same run id; `RunCheckpoints` speaks of the checkpoints of the planning loop.
- RunCheckpoints.SerialStepIsLatestExactly: speaks of identifiers below 1000, because the numbering of checkpoints mixes rounds and larger identifiers; `RunCheckpoints.StepIsLatestExactly` speaks of all.
- `list_runs` and `stats` of the checkpoint store: a filter and a count over what `Latest` and `List` describe.
- Tool-call timeouts, cancellation and policies in `ToolBatches`: a call is its list of atomic actions.
- The inside of `asyncio.Semaphore`: a permit count without queue order, and a wait that ends by acquiring or by giving up. `ExecutionLimiter` is one semaphore.
- The retry loop around `RateLimiter.RequestLimiter.AcquireOnce`: each pass is one attempt at a later clock reading, and the theorems are over all sequences of attempts. Clock readings are reals that do not go back.
- Loading, configuring and initializing plugins; `PluginLoader` starts from the initialized ones.
- `json.loads`, the code fence and the whole-text candidates of JSON extraction. `JsonScanner` admits any text free of quotes, backslashes and brackets as a number or literal name.
- The events and totals of token usage at the end of a call; stream chunks of a wrong type are an exception of the stream.
- ArtifactStore.InMemoryArtifactStore.EvictToLimits: requires that the durable entries meet the limits, because the loops otherwise never end; so does `PutEntry`.
- ArtifactStore.InMemoryArtifactStore.ReadArtifact: decoding bytes with replacement is any function, and a file's bytes at reading time are a parameter.
- `search`, `stat` and metadata of artifacts, and access times, which nothing reads.
- ToolNames.ToolNameMapper.EncodeName: the default rules only, with either collision policy; patterns, replacements and cases given by a provider are left out. The hash is any function giving six hexadecimal digits.
- Simulation.SimulationRunner.Run: a policy, the environment and the evaluator give the n-th step's change and success, or raise; an environment that changes the world behind the runner's back, the stream of simulation events and generated reports are left out. Fields of the world that no change touches are left out, and values of variables, events and artifacts are numbers.
