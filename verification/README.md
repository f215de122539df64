# Verified models of the AI OS core

This project models the algorithms and concurrent state machines inside `packages/brain` and `packages/core` in Dafny
and proves what they are for: optimal paths, cycle-free schedules, safe sagas, bounded queues, linearizable storage.

`dafny verify dfyconfig.toml` checks everything. Each file holds one module, named after it.

| what is modelled | modules |
|---|---|
| shared vocabulary: results, filters, stable sorting | Prelude, Sorting |
| dependency graphs, the cycle check, levels, the critical path | Dag, CycleCheck, Levels, CriticalPath |
| plans: the engine, and whole runs under its callers' protocol | Planning, PlanRuns |
| workflows: the engine, level-parallel against sequential execution, the saga, what records say | Workflow, WorkflowRuns, WorkflowSaga, WorkflowTrace |
| the knowledge graph: indexes and snapshots, walks, hop distances and queue order, Dijkstra, the class | GraphModel, GraphWalks, GraphHops, GraphQueue, Dijkstra, KnowledgeGraph |
| the arithmetic evaluator: tokens and grammar, decimals, parser, printer | ArithmeticSyntax, Numerals, Arithmetic, ArithmeticPrinter |
| the interval scheduler as a step machine: what it keeps, live runs, overlap, cycles of tasks, timers after a stop | TaskScheduler, SchedulerRuns, SchedulerLive, SchedulerOverlap, SchedulerChains, SchedulerStops |
| the promise-chaining lock, the store under it, histories of both, and that they serve every call | AsyncMutex, KeyValueStore, StoreRuns, StoreServed |
| pagination and scoped stores | Pages, ScopedStore |
| plugins: recursive activation with rollback, shutdown, overlapping calls | Plugins, PluginRegistry, PluginSteps |
| agents: selection and accounting, delegated runs | AgentRegistry, AgentRuns, MultiAgentRuntime |
| the job queue: its steps, the drain loop, the class, order of jobs, overlapping drains | JobQueue, JobDrain, BrainScheduler, JobOrders, DrainSteps |
| memory: records, id lists and vectors, the engine, whole runs, capacities | MemoryModel, MemoryEngine, MemoryRuns, MemoryLimits |
| the gateway's fixed-window rate limit | RateLimit |
| forward chaining | Reasoning, ReasoningEngine |
| cosine similarity, multi-criteria decisions, stream replay | VectorMath, Decision, Streaming |

How the models are built:

- A class of the source is a class here, with the source's fields and loops. Its methods are proved against functions on
  values, and the theorems are about those functions and about every state they can lead to.
- Code with `await` is cut into steps: each stretch that runs without suspending is one step, a step happens only when it
  can, and theorems quantify over every sequence of steps. A timeout, a rejected promise and a thrown error are outcomes
  of a step.
- Weights, costs, scores and confidences are `real`, times are integers read from a clock that is passed in, and fresh ids
  are parameters. Handlers, conditions, rules and plugin callbacks are arbitrary functions or outcomes.
- JavaScript iterates maps and sets in insertion order. Where the results below hold for any order, loops here take the
  elements in an arbitrary one; where the order matters (adjacency lists, registration order of tasks and plugins, rules,
  facts, drafts) it is a sequence.

Where the code does not do what its comments say or its callers may expect, the code is modelled and the difference is proved:

- The task scheduler promises "no overlapping task runs", but `drain` launches a waiting run without looking whether its
  task is running (`SchedulerOverlap.RunsOverlap`); an interleaving keeps the promise exactly when that never happens
  (`SchedulerOverlap.NeverOverlapsIff`).
- `stop` clears the timer that each record keeps; after a restart a task can have another one, which outlives the next `stop`
  (`SchedulerStops.TimerOutlivesStop`, `SchedulerStops.StopClearsIff`).
- `deactivateAll` is said to follow reverse dependency order; it follows reverse registration order and is refused unless
  that happens to fit (`PluginRegistry.PluginRegistry.DeactivateAll`, `PluginRegistry.ReverseShutdownFails`).
- `deactivate` verifies that nothing active depends on the plugin, but not that nothing being activated does, so overlapping
  calls can leave a plugin active without its dependency (`PluginSteps.DependencyStopped`, `PluginSteps.AlwaysClosedIff`,
  `PluginSteps.SeparateRunsStayClosed`); and what they report as a dependency cycle may be none
  (`PluginSteps.SharedDependencyRefused`, `PluginSteps.RefusedIff`).
- A listing resumed from a cursor with no key behind it starts over at the first key (`Pages.ResumeWrapsRound`,
  `Pages.ResumeCorrectIff`). Cursors that a listing of an unchanged store hands out never meet this.
- Cancelling a running job is not final: its run's outcome overwrites it (`JobQueue.CancelledJobSucceeds`,
  `JobQueue.CancellationFinalIff`).
- `drain` is said to honour the concurrency; overlapping drains have that many slots each (`DrainSteps.DrainsOverrun`,
  `DrainSteps.MoveExceedsIff`, `DrainSteps.OneAtATimeHonours`).
- A minimised criterion on which all options are equal scores 0 instead of counting as ideal
  (`Decision.FlatIdealIff`, `Decision.OnlyOptionScoresZero`, `Decision.MinimizeIsMaximizeNegatedIff`).
- The confidence of a decision is said to reflect the margin over the runner-up rather than the score; it reflects both
  (`Decision.TiedYetUnequallySure`, `Decision.ConfidenceReflectsScore`).
- Vectors are stored by id alone, so using one id in two namespaces puts the vector index out of step
  (`MemoryRuns.SharedIdLosesVector`, `MemoryModel.RememberKeepsVectorsIff`, `MemoryModel.ForgetKeepsVectorsIff`).
- A `remember` whose vector is rejected has stored its record already and skips the enforcement of the capacity
  (`MemoryLimits.RejectedOverfills`, `MemoryLimits.AlwaysFitsIff`).
- An inference with a goal is never reported as exhausted (`ReasoningEngine.CappedYetNotExhausted`,
  `ReasoningEngine.ExhaustedIff`). A goal that was given, rather than derived, is reported with the confidence of whatever
  else is derived (`ReasoningEngine.GivenGoalUnsure`, `ReasoningEngine.GivenGoalConfidenceIff`). No comment says otherwise.
- Restoring a snapshot that repeats an edge id between different ends leaves the indexes wrong
  (`GraphModel.RepeatedEdgeMisindexed`, `GraphModel.RestoredIndexedIff`).

## Model

| member | source | states |
|---|---|---|
| `CycleCheck.AssertAcyclic` | packages/brain/src/planning/planning-engine.ts:287-303 | The depth-first check terminates and throws exactly when the dependency relation has a cycle; the trail in its error follows dependencies and ends on an id it already passed; an accepted graph has a topological order. |
| `CycleCheck.DepthFirst.Visit` | packages/brain/src/workflow/workflow-engine.ts:322-331 | One recursive visit: it either throws a genuine cycle, or finishes the id and everything it depends on, keeping the finished ids in dependency order. |
| `Dag.DescentGivesCycle` | packages/brain/src/planning/planning-engine.ts:176-177 | A non-empty set of steps each of which depends on a member of the set holds a cycle; hence a level can only be empty on a cycle. |
| `Levels.Compute` | packages/brain/src/planning/planning-engine.ts:169-185 | Throws exactly on a cycle; otherwise level k lists, in declaration order, exactly the steps whose longest chain of predecessors has k elements, and no level is empty. |
| `Levels.LevelsPartition` | packages/brain/src/planning/planning-engine.ts:165-168 | Every step is in exactly one level. |
| `Levels.DependenciesEarlier` | packages/brain/src/planning/planning-engine.ts:165-168 | Each dependency of a step is in a strictly earlier level, so the steps of a level are independent. |
| `CriticalPath.Search.Walk` | packages/brain/src/planning/planning-engine.ts:250-262 | The memoised walk returns a chain ending at the step whose cost is the maximum over all chains ending there. |
| `CriticalPath.Compute` | packages/brain/src/planning/planning-engine.ts:245-270 | The critical path is a genuine dependency chain whose cost is the maximum over all chains; it may be empty only when every chain costs nothing. |
| `CriticalPath.UnitCostsGiveLevels` | packages/brain/src/planning/planning-engine.ts:165-185 | With unit costs the critical path has as many steps as there are levels. |
| `Planning.PlanningEngine.Compile` | packages/brain/src/planning/planning-engine.ts:94-141 | Accepts exactly a non-blank goal with drafts that are few enough, cost nothing negative, have distinct ids ("step-" and the number where none is given), depend only on each other, and declare no cycle. Each step of the plan has its draft's id, cost (1 if none) and dependencies, each once, and is ready from the start exactly if there are none. Nothing changes when it throws. |
| `Planning.AcceptableIff` | packages/brain/src/planning/planning-engine.ts:99-127 | The tests made on the compiled steps, cycle check included, come to those conditions on the drafts themselves. |
| `Planning.DigitsAreNumeral` | packages/brain/src/planning/planning-engine.ts:100 | The number in a generated step id is its decimal numeral, so generated ids differ. |
| `Planning.PlanningEngine.UpdateStep` | packages/brain/src/planning/planning-engine.ts:195-226 | Throws exactly on an unknown plan or step; otherwise the first step of that id gets the status, pending steps whose dependencies are all completed become ready, every other step stays, and the plan is failed, completed, executing or ready by its steps' statuses (a cancelled one stays cancelled). |
| `Planning.PlanningEngine.LevelsOf` | packages/brain/src/planning/planning-engine.ts:169-185 | On an accepted plan the levels never fail, and each step sits at its depth. |
| `Planning.PlanningEngine.CriticalPathOf` | packages/brain/src/planning/planning-engine.ts:244-270 | On an accepted plan the result is a chain of maximum cost. |
| `Planning.StructureOf` | packages/brain/src/planning/planning-engine.ts:170-176 | The graph and costs that levels and critical path are stated over are the dependencies and costs of the plan's steps. |
| `PlanRuns.CompileStartsRun` | packages/brain/src/planning/planning-engine.ts:127-140 | What `compile` returns is the start of a run in the sense of the theorems below. |
| `PlanRuns.UpdateSound` | packages/brain/src/planning/planning-engine.ts:195-226 | A protocol update (ready to running, running to completed or failed) keeps the plan sound: a step is past pending exactly when all its dependencies are completed. It uses up exactly one unit of remaining work. |
| `PlanRuns.RunsSound` | packages/brain/src/planning/planning-engine.ts:194-226 | Every plan of every run is sound, and remaining work plus updates made is two per step. |
| `PlanRuns.ReadyStepsAreStored` | packages/brain/src/planning/planning-engine.ts:188-192 | In every sound plan `readySteps` computes exactly the steps stored as ready, in order. |
| `PlanRuns.NeverDeadlocked` | packages/brain/src/planning/planning-engine.ts:279-285 | A sound plan that has neither failed nor completed has a ready or running step. |
| `PlanRuns.RunsFinish` | packages/brain/src/planning/planning-engine.ts:194-226 | No run makes more than two updates per step, and a run that cannot go on has failed or completed. |
| `PlanRuns.RunStatus` | packages/brain/src/planning/planning-engine.ts:279-285 | In every run the plan is ready exactly before the first update, completed exactly when all steps are, and failed exactly when some step is. |
| `Workflow.WorkflowEngine.Register` | packages/brain/src/workflow/workflow-engine.ts:111-129 | Accepts exactly a new id with at least one step, distinct step ids, known dependencies and no cycle; otherwise changes nothing. |
| `Workflow.WorkflowEngine.Execute` | packages/brain/src/workflow/workflow-engine.ts:153-241 | The whole execution computes the specified run of the levels, saga included, stores its record, and leaves a `running` record behind when it throws; what record and error say about handlers and states is stated by the lemmas of WorkflowTrace. |
| `Workflow.ExecuteLevels` | packages/brain/src/workflow/workflow-engine.ts:176-211 | The level loop: stops before the first level after a failure, at an inactive context, or at a step with an attempt limit below one. |
| `Workflow.ExecuteLevel` | packages/brain/src/workflow/workflow-engine.ts:180-210 | All steps of a level start from the state before the level; the outcomes are recorded in level order. |
| `Workflow.Compensate` | packages/brain/src/workflow/workflow-engine.ts:213-225 | The compensation loop computes the specified undoing of the completed steps. |
| `WorkflowTrace.RecordExplained` | packages/brain/src/workflow/workflow-engine.ts:157-240 | Every record that `execute` returns has a trace of states, the first with the input and no outputs: each step of an executed level is recorded as completed with n attempts and an output exactly as its handler, called with the state before its level, threw in attempts 1 to n - 1 and returned that output in attempt n within the limit; as failed if all attempts threw there, with the last message; as skipped if its `when` refused that state. The next state adds the outputs of the level's completed steps. The failure is the error of the last failed step of the last executed level, steps not reached stay pending, and compensation marks the completed steps whose handler returns on the last state. |
| `WorkflowTrace.ExplainsUnique` | packages/brain/src/workflow/workflow-engine.ts:267-298 | At most one execution is what a handler makes of a step in a state, so the record is determined by handlers and input. |
| `WorkflowTrace.ThrowExplained` | packages/brain/src/workflow/workflow-engine.ts:176-178 | When `execute` throws on a registered workflow, all levels before ran without a failure, and either the context is found inactive before the next, or a step of it that would run has an attempt limit below one. |
| `WorkflowTrace.CalledIff` | packages/brain/src/workflow/workflow-engine.ts:184-195 | In every returned run the handlers called are exactly those of the steps recorded as completed, compensated or failed. |
| `WorkflowTrace.UnfinishedPending` | packages/brain/src/workflow/workflow-engine.ts:157-170 | The record stored before the first level: running, the input, no outputs, every step pending. |
| `WorkflowRuns.AttemptsAreLeast` | packages/brain/src/workflow/workflow-engine.ts:267-298 | The retry loop settles a step as completed exactly when some attempt within the limit returns, on the first such attempt and with its output; otherwise it fails after all attempts. |
| `WorkflowRuns.LevelKeepsConsistent` | packages/brain/src/workflow/workflow-engine.ts:180-210 | One level keeps the run consistent: each settled step has the execution it comes to in the state of the run. |
| `WorkflowRuns.DependenciesSatisfied` | packages/brain/src/workflow/workflow-engine.ts:188-193 | While nothing has failed, the dependency guard cannot fire. |
| `WorkflowRuns.RunsConsistent` | packages/brain/src/workflow/workflow-engine.ts:173-211 | Every run that does not throw is consistent on the levels it executed: all of them unless something failed. |
| `WorkflowRuns.ConsistentRunsAgree` | packages/brain/src/workflow/workflow-engine.ts:173-211 | If handlers and conditions look only at the input and the outputs of declared dependencies, any two runs on the same input agree on every step both have settled. |
| `WorkflowRuns.SchedulesAgree` | packages/brain/src/workflow/workflow-engine.ts:173-211 | Any two schedules of the same steps give the same outputs and executions, if one of them runs without a failure. |
| `WorkflowRuns.ParallelRefinesSequential` | packages/brain/src/workflow/workflow-engine.ts:173-211 | The level-parallel run succeeds exactly when the run that takes the steps one at a time, in any dependency-respecting order, does; then both have the same outputs and executions. |
| `WorkflowSaga.LevelKeepsOrderly` | packages/brain/src/workflow/workflow-engine.ts:176-211 | One level keeps the saga invariant on the log of handler calls, settlements and completion order. |
| `WorkflowSaga.RunsOrderly` | packages/brain/src/workflow/workflow-engine.ts:176-211 | Every run that does not throw satisfies the saga invariant, without any assumption on the handlers. |
| `WorkflowSaga.SkippedIff` | packages/brain/src/workflow/workflow-engine.ts:184-193 | In every run that `execute` returns, a step is recorded as skipped exactly if the run reached its level and its own `when` refused the state at that point. |
| `WorkflowSaga.UndoVisitsInReverse` | packages/brain/src/workflow/workflow-engine.ts:214-218 | Compensation calls the undo handlers of exactly the completed steps that have one, last completed first. |
| `WorkflowSaga.UndoEffect` | packages/brain/src/workflow/workflow-engine.ts:217-223 | Exactly the compensated steps whose handler returns become `compensated`; outputs, failure and other executions stay. |
| `WorkflowSaga.CompensationInOrder` | packages/brain/src/workflow/workflow-engine.ts:213-225 | In every run that `execute` returns as compensated, a completed step is undone after every completed step that relies on it, directly or through other steps, even skipped ones. |
| `WorkflowSaga.SagaSafety` | packages/brain/src/workflow/workflow-engine.ts:176-228 | In every run that `execute` returns, a handler is called only after each dependency was recorded as completed or skipped, and never after a failure was recorded. |
| `WorkflowSaga.CompletedMeansNoFailure` | packages/brain/src/workflow/workflow-engine.ts:227-228 | A run is `completed` exactly when no step failed, and then every step completed or was skipped. |
| `KnowledgeGraph.KnowledgeGraph.AddNode` | packages/brain/src/knowledge/knowledge-graph.ts:71-94 | Rejects exactly blank types or labels and known ids; keeps both adjacency indexes exact. |
| `KnowledgeGraph.KnowledgeGraph.UpsertNode` | packages/brain/src/knowledge/knowledge-graph.ts:97-114 | Inserts, or replaces type and label and merges properties while keeping the creation time; indexes stay exact. |
| `KnowledgeGraph.KnowledgeGraph.AddEdge` | packages/brain/src/knowledge/knowledge-graph.ts:138-167 | Accepts exactly a non-blank type, two known ends, a positive weight and a new id; the edge goes to the end of both adjacency lists, and the indexes stay exact. |
| `KnowledgeGraph.KnowledgeGraph.RemoveEdge` | packages/brain/src/knowledge/knowledge-graph.ts:173-179 | Removes exactly that edge; the other edges keep their order in the adjacency lists, and the indexes stay exact. |
| `KnowledgeGraph.KnowledgeGraph.RemoveNode` | packages/brain/src/knowledge/knowledge-graph.ts:127-135 | Removes the node and exactly the edges that touch it; the other edges keep their order in the adjacency lists, and the indexes stay exact. |
| `KnowledgeGraph.KnowledgeGraph.AdjacentEdges` | packages/brain/src/knowledge/knowledge-graph.ts:339-350 | The indexed lookup yields exactly the edges that leave the node in the direction. |
| `KnowledgeGraph.KnowledgeGraph.Neighbors` | packages/brain/src/knowledge/knowledge-graph.ts:213-223 | Lists each node joined by an edge of the direction and type exactly once, in the order of the first edges to them. |
| `KnowledgeGraph.KnowledgeGraph.Traverse` | packages/brain/src/knowledge/knowledge-graph.ts:226-251 | Returns exactly the nodes at hop distance 1 to `maxDepth`, each once, nearer ones first, and in queue order: of two nodes the one reached by an earlier node of the list, or by an earlier edge of the same node, comes first. |
| `GraphQueue.QueueOrderUnique` | packages/brain/src/knowledge/knowledge-graph.ts:235-249 | Queue order leaves no choice: given nodes can be listed in it in one way only, so the result of a traversal is determined. |
| `GraphHops.BallIsWalks` | packages/brain/src/knowledge/knowledge-graph.ts:225-251 | The hop distances used there are those of walks: a node is within k hops exactly when a typed walk of at most k edges reaches it. |
| `KnowledgeGraph.KnowledgeGraph.ShortestPath` | packages/brain/src/knowledge/knowledge-graph.ts:257-305 | Returns a real walk whose edge sum equals `totalWeight` and is minimal over all walks, and nothing exactly when the target is unreachable. |
| `KnowledgeGraph.KnowledgeGraph.Explore` | packages/brain/src/knowledge/knowledge-graph.ts:262-289 | The main loop ends with the target nearest among unvisited nodes, or with every labelled node visited. |
| `KnowledgeGraph.RelaxAll` | packages/brain/src/knowledge/knowledge-graph.ts:280-288 | The relaxation loop keeps the search invariant and leaves no edge of the visited node unrelaxed. |
| `KnowledgeGraph.Reconstruct` | packages/brain/src/knowledge/knowledge-graph.ts:293-304 | Every node on the way back has a predecessor, so the missing-predecessor exit is never taken; the path sums to the distance. |
| `KnowledgeGraph.PickNearest` | packages/brain/src/knowledge/knowledge-graph.ts:267-276 | Selects an unvisited node at the least known distance, or none when no unvisited node has one. |
| `Dijkstra.WalkBound` | packages/brain/src/knowledge/knowledge-graph.ts:266-289 | Any walk from the start stays within its end's settled distance, or has passed an unvisited node that is no farther than the walk is long. |
| `Dijkstra.TargetNearest` | packages/brain/src/knowledge/knowledge-graph.ts:277 | When the loop stops at the target, no walk to it is shorter than its distance. |
| `Dijkstra.NothingLeft` | packages/brain/src/knowledge/knowledge-graph.ts:276-291 | When no unvisited node has a distance, the target is unreachable. |
| `Dijkstra.RelaxKeepsExplored` | packages/brain/src/knowledge/knowledge-graph.ts:283-286 | Improving a label keeps every label the length of a walk through visited nodes. |
| `KnowledgeGraph.KnowledgeGraph.TakeSnapshot` | packages/brain/src/knowledge/knowledge-graph.ts:308-310 | Lists every node and every edge once. |
| `KnowledgeGraph.KnowledgeGraph.Restore` | packages/brain/src/knowledge/knowledge-graph.ts:313-329 | For any snapshot: the last node or edge with an id wins, edges with a missing end are dropped, and the indexes are those the loops build. |
| `GraphModel.SnapshotRoundTrip` | packages/brain/src/knowledge/knowledge-graph.ts:308-329 | Restoring a snapshot of a graph reproduces the graph and both its indexes. |
| `GraphModel.RestoredIndexedIff` | packages/brain/src/knowledge/knowledge-graph.ts:323-328 | For an arbitrary snapshot the restored indexes are exact if and only if kept edges that repeat an id agree on their ends. |
| `GraphModel.RepeatedEdgeMisindexed` | packages/brain/src/knowledge/knowledge-graph.ts:323-328 | A snapshot with one edge id in both directions: the restored index lists the edge at an end it does not have. |
| `Arithmetic.EvaluateArithmetic` | packages/brain/src/tools/builtin-tools.ts:147-202 | The imperative evaluator always terminates and computes the specified evaluation, with the first error met. |
| `Arithmetic.Parser.RunExpression` | packages/brain/src/tools/builtin-tools.ts:162-168 | The expression loop follows the recursive specification from the shared position on. |
| `Arithmetic.Parser.RunTerm` | packages/brain/src/tools/builtin-tools.ts:170-182 | The term loop follows the recursive specification and always advances. |
| `Arithmetic.Parser.RunFactor` | packages/brain/src/tools/builtin-tools.ts:184-196 | The factor case analysis follows the recursive specification and always advances. |
| `Arithmetic.ExpressionSound` | packages/brain/src/tools/builtin-tools.ts:162-168 | Whatever the parser accepts is derivable from the expression grammar, with the parser's value. |
| `Arithmetic.ExpressionComplete` | packages/brain/src/tools/builtin-tools.ts:162-182 | Every derivation is followed, whatever comes after it, to its left-associative value, or to the division error. |
| `Arithmetic.EvaluatorMeetsGrammar` | packages/brain/src/tools/builtin-tools.ts:147-202 | A value is returned exactly when the characters are supported and the tokens derive from the grammar with that value and no zero divisor. |
| `Arithmetic.DerivableOrDivisionByZero` | packages/brain/src/tools/builtin-tools.ts:176-178 | Derivable tokens are rejected only for a zero divisor, and then with that error. |
| `Arithmetic.GrammarUnambiguous` | packages/brain/src/tools/builtin-tools.ts:162-196 | The grammar gives no token sequence two values. |
| `ArithmeticSyntax.SupportedMeansOnlySpaces` | packages/brain/src/tools/builtin-tools.ts:148-151 | The joined-token comparison succeeds exactly when there is a token and only white space lies outside the tokens. |
| `Numerals.NumeralsAreSpellings` | packages/brain/src/tools/builtin-tools.ts:148 | The number tokens are exactly the ways to write a decimal: digits, and a point with any digits behind it. |
| `Numerals.LongestNumberTaken` | packages/brain/src/tools/builtin-tools.ts:148 | Where a number starts, the scan takes the longest one as a token. |
| `Numerals.OtherwiseOneCharacter` | packages/brain/src/tools/builtin-tools.ts:148 | Where none starts, a symbol is a token of its own and any other character is passed over. |
| `Numerals.SpellingKeepsValue` | packages/brain/src/tools/builtin-tools.ts:193 | The value of a number token is that of the decimal it spells, by place value. |
| `ArithmeticPrinter.PrintingKeepsValue` | packages/brain/src/tools/builtin-tools.ts:162-196 | The derivation printed for a tree of decimals, signs and operations has the value that arithmetic gives the tree. |
| `ArithmeticPrinter.TokenizeRendered` | packages/brain/src/tools/builtin-tools.ts:148 | Printed tokens separated by any white space are read back as they were. |
| `ArithmeticPrinter.EvaluatePrinted` | packages/brain/src/tools/builtin-tools.ts:147-202 | Evaluating any printed tree of decimals, with any white space between its tokens, gives the tree's arithmetical value, or the division error when a divisor is zero. |
| `TaskScheduler.TaskScheduler.RegisterTask` | packages/core/src/scheduler/task-scheduler.ts:27-34 | Rejects exactly intervals below 10 ms and known ids; otherwise the task is added with its interval, and a started scheduler gives it a timer. |
| `TaskScheduler.TaskScheduler.StartAll` | packages/core/src/scheduler/task-scheduler.ts:36-41 | A started scheduler stays as it is; otherwise every registered task gets a timer of its own, in registration order, also after a `stop`. |
| `TaskScheduler.TaskScheduler.StopAll` | packages/core/src/scheduler/task-scheduler.ts:43-53 | Nothing waits any more and every waiting run is resolved, executions go on, records keep no timer, and exactly the timers that no record kept stay outstanding. |
| `TaskScheduler.TaskScheduler.EnqueueTask` | packages/core/src/scheduler/task-scheduler.ts:73-86 | A run of a task marked as running, or after a stop, is dropped; else it is launched if a slot is free, and put at the end of the queue if not. |
| `TaskScheduler.TaskScheduler.DrainQueue` | packages/core/src/scheduler/task-scheduler.ts:99-106 | The drain loop: launches waiting runs first in first out into free slots, resolving them instead once aborted. |
| `TaskScheduler.TaskScheduler.OnTimer` | packages/core/src/scheduler/task-scheduler.ts:68-69 | A timer that fires is gone, and its task is asked to run: launched, put at the end of the queue, or dropped. |
| `TaskScheduler.TaskScheduler.OnFinished` | packages/core/src/scheduler/task-scheduler.ts:79 | The handler returned: its task, and no other, loses the running mark, while the slot stays taken. |
| `TaskScheduler.TaskScheduler.OnReplan` | packages/core/src/scheduler/task-scheduler.ts:66-71 | A run that is over gives its task a new timer exactly while the scheduler is started. |
| `TaskScheduler.TaskScheduler.OnSettled` | packages/core/src/scheduler/task-scheduler.ts:90-95 | One step of the machine: frees the slot, resolves the run and drains. |
| `TaskScheduler.TaskScheduler.RunTaskNow` | packages/core/src/scheduler/task-scheduler.ts:55-60 | Throws exactly for an unknown task or a scheduler that is not started; otherwise one enqueue step. |
| `SchedulerRuns.NextKeeps` | packages/core/src/scheduler/task-scheduler.ts:43-106 | Every step keeps the invariant of the next row. |
| `SchedulerRuns.EveryInterleaving` | packages/core/src/scheduler/task-scheduler.ts:43-106 | After every interleaving: `active` counts the unfinished executions and stays within `concurrency`, runs wait only while every slot is taken, runs are launched first in first out, and each run ever queued is in exactly one place. |
| `SchedulerRuns.ResolvedExactlyOnce` | packages/core/src/scheduler/task-scheduler.ts:81-97 | No run is resolved twice, and once nothing executes every run ever queued has been resolved. |
| `SchedulerLive.TimerDrivenOneLive` | packages/core/src/scheduler/task-scheduler.ts:66-97 | With timer-driven runs only and before any restart, no task has two runs waiting or running. |
| `SchedulerLive.EnqueueKeepsOneLiveIff` | packages/core/src/scheduler/task-scheduler.ts:73-74 | The guard of `enqueue` keeps every task at one waiting or running run if and only if the task is marked running, the scheduler is stopped, or the task has none. |
| `SchedulerLive.TwoRunsWait` | packages/core/src/scheduler/task-scheduler.ts:73-74 | A reachable state shows that the guard does not always: the mark is set only when a run starts, so two runs of one task can wait in the queue. |
| `SchedulerChains.NeverFallsOut` | packages/core/src/scheduler/task-scheduler.ts:27-71 | In every interleaving without a `stop`, `runNow` included, each task registered with a started scheduler is in exactly one place: an outstanding timer, a run that a timer started and that has not settled, or a re-plan about to happen. Before the start it is in none. |
| `SchedulerStops.FirstStopIsClean` | packages/core/src/scheduler/task-scheduler.ts:43-53 | The first `stop` of an interleaving leaves no timer outstanding and no run waiting. |
| `SchedulerStops.StopClearsIff` | packages/core/src/scheduler/task-scheduler.ts:47-50 | A `stop` leaves no timer outstanding if and only if every outstanding one is kept by some record. |
| `SchedulerStops.TimerOutlivesStop` | packages/core/src/scheduler/task-scheduler.ts:36-71 | A run reaches a state where it is not: a run outlives `stop` and `start` and plans its task a second time, and the next `stop` clears one of the two timers. |
| `SchedulerOverlap.TimerDrivenRunsNeverOverlap` | packages/core/src/scheduler/task-scheduler.ts:66-97 | With timer-driven runs only and before any restart, no two runs of a task execute at once. |
| `SchedulerOverlap.StepOverlapsIff` | packages/core/src/scheduler/task-scheduler.ts:73-106 | In every state that satisfies the invariant, a step makes two executions of a task overlap if and only if it launches a run of a task that is still executing. |
| `SchedulerOverlap.FirstOverlapIff` | packages/core/src/scheduler/task-scheduler.ts:88-106 | The first overlap of any interleaving arises exactly where `drain` launches a waiting run of a task whose record is marked running: `enqueue` looks at the mark, `drain` does not. |
| `SchedulerOverlap.NeverOverlapsIff` | packages/core/src/scheduler/task-scheduler.ts:14-106 | The class comment's promise holds throughout an interleaving if and only if `drain` never launches a run of a task marked running. |
| `SchedulerOverlap.RunsOverlap` | packages/core/src/scheduler/task-scheduler.ts:14 | The promise fails in general: with two slots, a task that was run twice while both were taken executes twice at once. |
| `AsyncMutex.AsyncMutex.RunExclusive` | packages/core/src/utils/async.ts:34-38 | The synchronous part of a call: it awaits the one tail field's promise and replaces it by a promise chained to that one and to its own release; this refines the call step of the lock with numbered tails. |
| `AsyncMutex.AsyncMutex.EnterBody` | packages/core/src/utils/async.ts:38-39 | A body whose awaited promise has resolved enters; in the lock with numbered tails that step is enabled and is the one taken. |
| `AsyncMutex.AsyncMutex.LeaveBody` | packages/core/src/utils/async.ts:39 | Settling the release, after a return or a throw, refines the leaving step and resolves no tail yet. |
| `AsyncMutex.AsyncMutex.ResolveChained` | packages/core/src/utils/async.ts:37 | A chained promise resolves once the previous one and the release have: some tail of the lock, in its turn, resolves. |
| `AsyncMutex.CallsExclude` | packages/core/src/utils/async.ts:32-41 | In every reachable object, whatever its promises, at most one call is inside its operation. |
| `AsyncMutex.MutualExclusion` | packages/core/src/utils/async.ts:32-41 | At most one body is inside at any moment. |
| `AsyncMutex.EntersInCallOrder` | packages/core/src/utils/async.ts:34-39 | In every run the invariant holds and bodies enter in call order, also when earlier ones throw. |
| `AsyncMutex.NeverDeadlocked` | packages/core/src/utils/async.ts:34-39 | While some call has not left, a body can enter or leave or a tail can resolve. |
| `KeyValueStore.MemoryKeyValueStore.WriteBody` | packages/core/src/storage/key-value-store.ts:42-50 | Rejects exactly invalid keys and an expected version that the key does not have, and then changes nothing; otherwise stores the value with the next version, 1 for a new key. |
| `KeyValueStore.MemoryKeyValueStore.RemoveBody` | packages/core/src/storage/key-value-store.ts:52-59 | The remove body: false on an absent key before any version check; conflict; otherwise the key goes. |
| `KeyValueStore.MemoryKeyValueStore.Get` | packages/core/src/storage/key-value-store.ts:23 | Reads see the current values, or throw on an invalid key. |
| `StoreRuns.EveryHistoryLinearizes` | packages/core/src/storage/key-value-store.ts:24-25 | Whatever the interleaving of calls, enters, operations of bodies and leaves, values and outcomes are those of running the bodies one after another in call order. |
| `StoreServed.EveryCallServed` | packages/core/src/storage/key-value-store.ts:24-25 | In every history a single operation has been performed exactly once if its call has entered, and not at all before. |
| `StoreServed.ThreeStepsEach` | packages/core/src/storage/key-value-store.ts:24-25 | Each call adds three steps of the lock, and each of those is taken once. |
| `StoreServed.QuietMeansServed` | packages/core/src/storage/key-value-store.ts:24-25 | A history in which no step of the lock is possible any more has performed every single operation exactly once. |
| `StoreRuns.VersionCountsWrites` | packages/core/src/storage/key-value-store.ts:44-48 | A key is live exactly when it was written since its creation, and its version is the number of those writes. |
| `StoreRuns.VersionsGrow` | packages/core/src/storage/key-value-store.ts:44-48 | Between deletions versions only grow, and an unchanged version means an unchanged entry. |
| `StoreRuns.CompareAndSetOnce` | packages/core/src/storage/key-value-store.ts:45 | Of all `set` calls with one expected version on a key that is not deleted in between, at most one succeeds. |
| `StoreRuns.CompareAndSetSeesRead` | packages/core/src/storage/key-value-store.ts:45-48 | A successful compare-and-set overwrites the very entry its caller read, if the key was not deleted meanwhile. |
| `StoreRuns.NoLostUpdate` | packages/core/src/storage/key-value-store.ts:18-24 | Read/compare-and-set retry loops lose no update: the value is the update applied once per successful write. |
| `Pages.AscendingUnique` | packages/core/src/storage/key-value-store.ts:30 | Sorting by code units determines the sequence: only one ascending sequence holds given keys. |
| `Pages.LimitHolds` | packages/core/src/storage/key-value-store.ts:28-33 | A listing is refused exactly for a limit outside 1 to 1000, and a page holds at most the limit, 100 by default. |
| `Pages.NextPageAdjoins` | packages/core/src/storage/key-value-store.ts:31-35 | A next cursor exists exactly when keys remain, and the page it leads to starts right behind; the not-found index never arises from it. |
| `Pages.PagingListsEveryKeyOnce` | packages/core/src/storage/key-value-store.ts:27-36 | Following the cursors from the start, for any prefix and limit, terminates and yields every matching key exactly once in ascending order with its entry. |
| `Pages.FollowListsSuffix` | packages/core/src/storage/key-value-store.ts:27-36 | Following from any start position lists exactly the rest of the keys. |
| `Pages.ResumeCorrectIff` | packages/core/src/storage/key-value-store.ts:32 | Resuming from an arbitrary cursor lists just the keys above it if and only if there is no key at all or some key above it; otherwise the listing wraps round to the first key. |
| `Pages.ResumeWrapsRound` | packages/core/src/storage/key-value-store.ts:32 | A store with one key, and the cursor above it whose page lists that key again. |
| `ScopedStore.ReadAgrees` | packages/core/src/storage/key-value-store.ts:71 | A scoped read sees what a private store holding only the scope's keys would hold. |
| `ScopedStore.OutcomeAgrees` | packages/core/src/storage/key-value-store.ts:72-73 | A scoped write or delete has the outcome it has on the private store. |
| `ScopedStore.EffectAgrees` | packages/core/src/storage/key-value-store.ts:72-73 | A scoped write or delete has the effect it has on the private store. |
| `ScopedStore.ListAgrees` | packages/core/src/storage/key-value-store.ts:74-78 | A scoped page is the private store's page: entries, order, next cursor and errors. |
| `ScopedStore.DisjointIff` | packages/core/src/storage/key-value-store.ts:86 | Two scopes never share a key exactly when neither scope-and-colon prefix extends the other. |
| `ScopedStore.ColonFreeDisjoint` | packages/core/src/storage/key-value-store.ts:86 | In particular different scopes without a colon. |
| `ScopedStore.ScopesIsolated` | packages/core/src/storage/key-value-store.ts:71-86 | An operation through one scope leaves the private store of a disjoint scope unchanged. |
| `ScopedStore.ScopedKeyValueStore.Open` | packages/core/src/storage/key-value-store.ts:68-70 | A scope is refused exactly if it is blank. |
| `ScopedStore.ScopedKeyValueStore.Get` | packages/core/src/storage/key-value-store.ts:71 | The method reads the private store through the shared one. |
| `ScopedStore.ScopedKeyValueStore.WriteBody` | packages/core/src/storage/key-value-store.ts:72 | The method performs a private write through the shared store. |
| `ScopedStore.ScopedKeyValueStore.RemoveBody` | packages/core/src/storage/key-value-store.ts:73 | The method performs a private delete through the shared store. |
| `PluginRegistry.PluginRegistry.Register` | packages/brain/src/plugins/plugin-registry.ts:77-93 | Rejects invalid manifests and known ids; keeps every registry invariant. |
| `PluginRegistry.PluginRegistry.Activate` | packages/brain/src/plugins/plugin-registry.ts:96-127 | Recursive activation terminates on every dependency graph and succeeds if and only if no chain of inactive plugins leads to a missing, faulty or repeated one; either way it leaves the `activating` set as it was, makes nothing faulty active, and keeps the invariants. |
| `PluginRegistry.PluginRegistry.ActivateDependencies` | packages/brain/src/plugins/plugin-registry.ts:105-110 | The loop over the dependencies: on success all are active; on failure one of them is to blame. |
| `PluginRegistry.PluginRegistry.Attempt` | packages/brain/src/plugins/plugin-registry.ts:103-126 | Marking, the callback, and the rollback of the record in both outcomes. |
| `PluginRegistry.PluginRegistry.ActivateAll` | packages/brain/src/plugins/plugin-registry.ts:130-134 | Succeeds exactly when no plugin that is still only registered is blocked, and then has activated all of them. |
| `PluginRegistry.PluginRegistry.Deactivate` | packages/brain/src/plugins/plugin-registry.ts:137-156 | Refuses exactly while another active plugin depends on it; otherwise stops it, disposers run latest first, even when the callback throws. |
| `PluginRegistry.PluginRegistry.DeactivateAll` | packages/brain/src/plugins/plugin-registry.ts:159-163 | Succeeds if and only if no active plugin was registered before one of its dependencies and no callback throws; then nothing is active. |
| `PluginRegistry.PluginRegistry.Unregister` | packages/brain/src/plugins/plugin-registry.ts:165-171 | Refuses exactly active plugins; the invariants survive the removal. |
| `PluginRegistry.PluginRegistry.Dispose` | packages/brain/src/plugins/plugin-registry.ts:121-124 | Runs the record's disposers, latest first, and empties it. |
| `Plugins.OrderMakesActiveSetSound` | packages/brain/src/plugins/plugin-registry.ts:96-127 | With an activation order, the active set is closed under dependencies and no member reaches a cycle. |
| `Plugins.CyclesBlock` | packages/brain/src/plugins/plugin-registry.ts:99-101 | A plugin that reaches a dependency cycle cannot be activated. |
| `Plugins.ActivatedWasNotBlocked` | packages/brain/src/plugins/plugin-registry.ts:103-120 | Whatever an activation made active was not blocked before. |
| `PluginRegistry.RegisteredAfterDependencies` | packages/brain/src/plugins/plugin-registry.ts:158-163 | When each plugin is registered after its dependencies, `deactivateAll` stops everything. |
| `PluginRegistry.ReverseRegistrationRefuses` | packages/brain/src/plugins/plugin-registry.ts:158 | The comment's "reverse dependency order" fails in general: a registry whose `deactivateAll` is refused. |
| `PluginRegistry.ReverseShutdownFails` | packages/brain/src/plugins/plugin-registry.ts:158-163 | A run on an empty registry: "app" is registered before "base", on which it depends, activating "app" succeeds, and `deactivateAll` throws. |
| `PluginRegistry.RefusedIff` | packages/brain/src/plugins/plugin-registry.ts:141-147 | Going back through the registration order, the next plugin is refused exactly when it is active and an active plugin registered before it depends on it, or its callback throws. |
| `PluginSteps.RunsShaped` | packages/brain/src/plugins/plugin-registry.ts:96-127 | In every interleaving of `activate` and `deactivate` calls, cut at their awaits, each nested invocation is for the dependency the one behind it awaits, and whatever is marked as activating is being activated by some call. |
| `PluginSteps.InnermostEnds` | packages/brain/src/plugins/plugin-registry.ts:104-126 | An invocation that returns or throws leaves its call: the one behind goes on with its next dependency or fails too, and a call with none behind is over. |
| `PluginSteps.RefusedIff` | packages/brain/src/plugins/plugin-registry.ts:99-101 | The "dependency cycle" error is about cycles only within one call: without cycles a registered dependency is refused if and only if it is marked as activating, and then another call is activating it. |
| `PluginSteps.SharedDependencyRefused` | packages/brain/src/plugins/plugin-registry.ts:99-101 | A run without any cycle: two plugins share a dependency, and activating the second fails while the first has the dependency activated. |
| `PluginSteps.StepBreaksIff` | packages/brain/src/plugins/plugin-registry.ts:96-156 | From an active set closed under dependencies a step leads to one that is not if and only if it takes out a plugin that another active one depends on, or makes one active that lacks a dependency. |
| `PluginSteps.AlwaysClosedIff` | packages/brain/src/plugins/plugin-registry.ts:96-156 | The active set is closed in every state of an interleaving if and only if none of its steps does that. |
| `PluginSteps.SeparateRunsStayClosed` | packages/brain/src/plugins/plugin-registry.ts:95-156 | Overlapping calls keep the active set closed as long as no plugin is being stopped while it, or one that depends on it, is being activated; then a plugin under activation is also marked so. |
| `PluginSteps.OverlapCanBreak` | packages/brain/src/plugins/plugin-registry.ts:118-155 | That condition cannot be dropped: whenever a plugin is being stopped while the callback of one that depends on it is pending, two further steps leave the latter active without the former. |
| `PluginSteps.DependencyStopped` | packages/brain/src/plugins/plugin-registry.ts:136-155 | A run from a registry of two: `deactivate` verifies that nothing active depends on "base" while "app" awaits its callback, and "app" ends up active without it. |
| `AgentRegistry.AgentRegistry.Select` | packages/brain/src/agents/agent-registry.ts:95-110 | Among the agents that are not disabled, have all required capabilities and are below their limit (1 unless given): the one with the least load, then the fewest capabilities, then the first by id; none exactly when there is none. |
| `AgentRegistry.AgentRegistry.Acquire` | packages/brain/src/agents/agent-registry.ts:113-121 | Throws exactly for an unknown agent or one at its limit; otherwise one more task and busy. |
| `AgentRegistry.AgentRegistry.Release` | packages/brain/src/agents/agent-registry.ts:124-137 | One task less but never below 0, one completed or failed result more; a disabled agent stays so, another is busy exactly while it has tasks. |
| `AgentRegistry.AgentRegistry.Disable` | packages/brain/src/agents/agent-registry.ts:140-144 | The agent is disabled, its figures unchanged. |
| `AgentRegistry.AgentRegistry.Enable` | packages/brain/src/agents/agent-registry.ts:147-151 | The agent is busy exactly when it still has tasks. |
| `MultiAgentRuntime.MultiAgentRuntime.RunOn` | packages/brain/src/agents/multi-agent-runtime.ts:197-209 | Starts a run exactly when the depth is within the limit, the agent exists, is not disabled and has spare capacity; otherwise changes nothing. |
| `MultiAgentRuntime.MultiAgentRuntime.Dispatch` | packages/brain/src/agents/multi-agent-runtime.ts:73-82 | Starts a run exactly when some agent is available. |
| `MultiAgentRuntime.MultiAgentRuntime.Delegate` | packages/brain/src/agents/multi-agent-runtime.ts:217-227 | Starts a nested run exactly when the depth limit and some agent allow it. |
| `MultiAgentRuntime.MultiAgentRuntime.Settle` | packages/brain/src/agents/multi-agent-runtime.ts:233-263 | Success, failure and timeout alike release the agent once. |
| `AgentRuns.EveryHistoryAccounts` | packages/brain/src/agents/multi-agent-runtime.ts:197-267 | After every interleaving, each agent's `activeTasks`, completed and failed figures are exactly its working, succeeded and failed runs. |
| `AgentRuns.AcquiresAreConserved` | packages/brain/src/agents/agent-registry.ts:113-137 | Active plus completed plus failed equals the acquires, and `activeTasks` stays between 0 and the limit, so the clamp at zero never acts. |
| `AgentRuns.ReleasedOnce` | packages/brain/src/agents/multi-agent-runtime.ts:233-263 | A settled run never changes again, so every acquire is matched by at most one release. |
| `AgentRuns.SelectedAgentStarts` | packages/brain/src/agents/agent-registry.ts:95-121 | An agent that `select` chose never fails `acquire`; only the delegation depth can stop the run. |
| `AgentRuns.NestingBounded` | packages/brain/src/agents/multi-agent-runtime.ts:198-200 | A chain of delegated runs has exactly depth + 1 members, at most `maxDelegationDepth` + 1. |
| `AgentRuns.QuiescentMeansIdle` | packages/brain/src/agents/agent-registry.ts:134-136 | Once every run has settled no agent is left busy. |
| `JobQueue.EveryHistoryKeeps` | packages/brain/src/scheduler/brain-scheduler.ts:79-211 | Every interleaving of enqueues, starts, successes, failures, cancellations and clearings keeps the queue invariant. |
| `JobQueue.ExactlyOnePlace` | packages/brain/src/scheduler/brain-scheduler.ts:166-175 | Until something is cleared, every enqueued job is in exactly one of queue and finished, even if cancelled while running. |
| `JobQueue.AttemptsBounded` | packages/brain/src/scheduler/brain-scheduler.ts:142 | A handler is called exactly `attempts` times, at most `maxAttempts`. |
| `JobQueue.RetryWaits` | packages/brain/src/scheduler/brain-scheduler.ts:151-155 | Retry k is not due before its failure time plus backoff times 2 to the power k - 1. |
| `JobOrders.JobsKeepTheirOptions` | packages/brain/src/scheduler/brain-scheduler.ts:88-101 | In every history each job was enqueued by one step, and keeps the priority, attempt limit and backoff given there. |
| `JobOrders.EnqueuedOnce` | packages/brain/src/scheduler/brain-scheduler.ts:76-101 | No job is enqueued by two steps of a history. |
| `JobOrders.DelayWaits` | packages/brain/src/scheduler/brain-scheduler.ts:92 | An untried job is not due before the time of its enqueueing plus its delay. |
| `JobOrders.BackoffDoubles` | packages/brain/src/scheduler/brain-scheduler.ts:151-155 | A due retry has waited the backoff the job was enqueued with, doubled for each attempt after the first. |
| `JobOrders.EndingsExplained` | packages/brain/src/scheduler/brain-scheduler.ts:157 | A job ends as dead exactly out of several attempts, all made, and as failed out of a single one. |
| `JobQueue.CancellationFinalIff` | packages/brain/src/scheduler/brain-scheduler.ts:144-175 | A job cancelled in the queue stays cancelled in every continuation without clearing if and only if it was still waiting, rather than running, when cancelled. |
| `JobQueue.CancelledJobSucceeds` | packages/brain/src/scheduler/brain-scheduler.ts:144-175 | A concrete history: a job is cancelled while it runs, and ends up recorded as succeeded. |
| `JobQueue.CancelledNeverBegins` | packages/brain/src/scheduler/brain-scheduler.ts:167-175 | A job that has left the queue is never run again. |
| `JobDrain.PrefixIsBatch` | packages/brain/src/scheduler/brain-scheduler.ts:106-126 | The first jobs of the due list are a batch: due, as many as there are slots for, none with another due job before it by priority, then time, and in that order. |
| `JobOrders.HigherPriorityFirst` | packages/brain/src/scheduler/brain-scheduler.ts:111 | Of two due jobs the one enqueued with the higher priority is never left out of a batch for the other, nor begun after it. |
| `JobOrders.EarlierDueFirst` | packages/brain/src/scheduler/brain-scheduler.ts:111 | Of two due jobs of one priority the one due earlier is never left out of a batch for the other, nor begun after it. |
| `JobOrders.TiesInQueueOrder` | packages/brain/src/scheduler/brain-scheduler.ts:106-112 | Due jobs of one priority and one due time are listed in queue order. |
| `Sorting.SortStable` | packages/brain/src/scheduler/brain-scheduler.ts:111 | The sort is stable. |
| `BrainScheduler.BrainTaskScheduler.Enqueue` | packages/brain/src/scheduler/brain-scheduler.ts:79-103 | Rejects exactly blank names, attempt limits below one and negative delays; otherwise appends a queued job with the given priority, attempt limit and backoff and no attempts, due the given delay after the clock reading it makes. |
| `BrainScheduler.BrainTaskScheduler.BeginJob` | packages/brain/src/scheduler/brain-scheduler.ts:137-145 | `runJob` up to the handler call, as one step of the machine. |
| `BrainScheduler.BrainTaskScheduler.FinishJob` | packages/brain/src/scheduler/brain-scheduler.ts:145-163 | The rest of `runJob`: succeeded, retried, failed or dead, as one step of the machine; the backoff of a retry starts at the clock reading it makes, and only a retry makes one; the job is returned exactly when terminal. |
| `BrainScheduler.BrainTaskScheduler.Cancel` | packages/brain/src/scheduler/brain-scheduler.ts:167-175 | Throws exactly for a job not in the queue; otherwise one step of the machine. |
| `BrainScheduler.BrainTaskScheduler.ClearCompleted` | packages/brain/src/scheduler/brain-scheduler.ts:202-204 | Forgets the finished jobs and nothing else. |
| `BrainScheduler.BrainTaskScheduler.DueJobs` | packages/brain/src/scheduler/brain-scheduler.ts:106-112 | The due jobs of the queue at one clock reading, sorted. |
| `BrainScheduler.BrainTaskScheduler.RunBatch` | packages/brain/src/scheduler/brain-scheduler.ts:126-128 | Starts a batch in order, lets the handlers finish in any order, returns the newly terminal jobs in batch order, and times every retry by a clock reading made meanwhile. |
| `BrainScheduler.BrainTaskScheduler.Drain` | packages/brain/src/scheduler/brain-scheduler.ts:119-134 | Terminates; every turn runs a batch that is highest-priority at the turn's own clock reading, readings increase from turn to turn, and retries are due one backoff after a reading of their turn; returns each newly terminal job exactly once; leaves nothing due at its last reading. |
| `DrainSteps.RunsSound` | packages/brain/src/scheduler/brain-scheduler.ts:119-175 | Any number of `drain` and `runJob` calls overlap with enqueues and cancellations: in every interleaving each running job is awaited by exactly one call, each terminal job was seen by exactly one, and a call awaits no more handlers than it has slots. |
| `DrainSteps.RunningBounded` | packages/brain/src/scheduler/brain-scheduler.ts:126-127 | At most the slots of all open calls together are used: each open `drain` has the whole concurrency to itself. |
| `DrainSteps.OneAtATimeHonours` | packages/brain/src/scheduler/brain-scheduler.ts:115 | With one call open at a time no more jobs run at once than the concurrency allows. |
| `DrainSteps.MoveExceedsIff` | packages/brain/src/scheduler/brain-scheduler.ts:126-127 | A step exceeds the concurrency if and only if the jobs it starts do not fit beside all those already running. |
| `DrainSteps.DrainsOverrun` | packages/brain/src/scheduler/brain-scheduler.ts:115 | A run with one slot and two overlapping drains in which two jobs run at once. |
| `DrainSteps.DrainEndsIff` | packages/brain/src/scheduler/brain-scheduler.ts:122-124 | Whatever happened meanwhile, a drain ends exactly when nothing is due at the clock reading it makes then. |
| `DrainSteps.FinishSettles` | packages/brain/src/scheduler/brain-scheduler.ts:145-158 | A job comes out of its handler succeeded, queued again while attempts remain, or dead or failed. |
| `DrainSteps.TerminalReturnedOnce` | packages/brain/src/scheduler/brain-scheduler.ts:117-133 | In every interleaving a job that has reached a terminal status keeps it, and exactly one call has it among the jobs it returns. |
| `MemoryModel.KeysNeverCollide` | packages/brain/src/memory/memory-engine.ts:304-317 | Record and index keys of all namespaces never collide, because a valid namespace contains no colon. |
| `MemoryEngine.RecordKeyIs` | packages/brain/src/memory/memory-engine.ts:304-310 | The keys of a record and of an id list, letter by letter, and which records are too long for the store. |
| `MemoryModel.RememberKeepsVectorsIff` | packages/brain/src/memory/memory-engine.ts:79-84 | Remembering keeps the vector index in step with the records if and only if no other namespace has a record of that id. |
| `MemoryModel.ForgetKeepsVectorsIff` | packages/brain/src/memory/memory-engine.ts:146-151 | Forgetting keeps the vector index in step if and only if no other namespace has a record of that id. |
| `MemoryModel.EnforcementEvictsLowest` | packages/brain/src/memory/memory-engine.ts:257-270 | Enforcing the capacity brings the namespace down to it, changes nothing else, and nothing that stays ranks strictly below anything that goes, by importance, then last access. |
| `MemoryEngine.PersistentMemoryEngine.Remember` | packages/brain/src/memory/memory-engine.ts:48-88 | All input checks; the record has the given fields, its own time stamps and the given or computed embedding; then record, index, vector and capacity. An input that the vector index rejects leaves record and index entry behind. |
| `MemoryEngine.PersistentMemoryEngine.Recall` | packages/brain/src/memory/memory-engine.ts:91-105 | Returns the record with last access now and one access more, every other field as it was, and stores just that; or forgets a record whose expiry is not after now; or finds none and changes nothing. |
| `MemoryEngine.PersistentMemoryEngine.Update` | packages/brain/src/memory/memory-engine.ts:115-143 | Succeeds exactly when recall finds the record, the importance is in range and the vector index takes the embedding. Then content and importance are the given ones or the old ones, new content is embedded, the access is noted, id, namespace and expiry stay, the vector index holds that embedding, and nothing else changes. `NotFound` exactly when recall finds nothing; failing on the importance leaves just the access noted, failing on the vector leaves the changed record stored. |
| `MemoryEngine.PersistentMemoryEngine.Forget` | packages/brain/src/memory/memory-engine.ts:146-151 | Removes record, index entry and vector, and tells whether there was a record. |
| `MemoryEngine.PersistentMemoryEngine.EnforceCapacity` | packages/brain/src/memory/memory-engine.ts:257-270 | On an indexed memory the pruning loop computes the specified enforcement and returns by how much the id list shrank. |
| `MemoryEngine.PersistentMemoryEngine.Consolidate` | packages/brain/src/memory/memory-engine.ts:198-210 | On an indexed memory the two pruning passes compute the specified consolidation and return by how much the id list shrank. |
| `MemoryEngine.PersistentMemoryEngine.Clear` | packages/brain/src/memory/memory-engine.ts:232-241 | Deletes what the id list names and the list itself, and returns its length. |
| `MemoryEngine.PersistentMemoryEngine.Upsert` | packages/brain/src/memory/vector-memory.ts:53-66 | Rejects exactly blank ids, empty vectors and a dimension other than that of the first vector held, and keeps all vectors at one dimension. |
| `MemoryEngine.FirstDecides` | packages/brain/src/memory/vector-memory.ts:59-64 | While all vectors have one dimension, comparing with the first one decides as comparing with all would. |
| `MemoryRuns.EveryRunIndexed` | packages/brain/src/memory/memory-engine.ts:48-302 | After any sequence of calls every id list is duplicate-free and names exactly the stored records of its namespace. |
| `MemoryRuns.EveryRunInStep` | packages/brain/src/memory/memory-engine.ts:48-302 | With ids unique across namespaces and a fixed dimension, after any sequence of calls the vector index holds exactly each record's embedding. |
| `MemoryRuns.SharedIdLosesVector` | packages/brain/src/memory/memory-engine.ts:79-84 | Two `remember` calls with one id in two namespaces pass all checks, those of the vector index included: both records are stored, and the first one's vector is gone. |
| `MemoryRuns.RememberWithinCapacity` | packages/brain/src/memory/memory-engine.ts:86 | After `remember`, which stores the record as given, at most `capacityPerNamespace` records remain, as few are evicted as possible, no survivor is less important than an evicted record or as important and longer unread, and other records stay as they are. |
| `MemoryLimits.EveryRunUniform` | packages/brain/src/memory/vector-memory.ts:53-66 | After any sequence of calls all vectors have one dimension. |
| `MemoryLimits.StepFitsIff` | packages/brain/src/memory/memory-engine.ts:79-86 | From a memory within its capacities a call leads out of them if and only if it is a `remember` of a new id that the vector index rejects while the namespace is full: the record stays and enforcement is not reached. |
| `MemoryLimits.AlwaysFitsIff` | packages/brain/src/memory/memory-engine.ts:48-302 | After every prefix of a sequence of calls all namespaces are within capacity if and only if none of the calls is of that kind. |
| `MemoryLimits.RespectingRunsFit` | packages/brain/src/memory/memory-engine.ts:48-302 | With ids unique across namespaces and a fixed dimension every namespace is within its capacity after any sequence of calls. |
| `MemoryLimits.RejectedOverfills` | packages/brain/src/memory/memory-engine.ts:79-86 | A concrete run at capacity 1: a note with an empty vector passes the input checks, is rejected by the vector index, and leaves two records. |
| `MemoryRuns.ConsolidateDropsExpired` | packages/brain/src/memory/memory-engine.ts:198-210 | After `consolidate` no expired record is left. |
| `MemoryRuns.ConsolidateKeepsAlive` | packages/brain/src/memory/memory-engine.ts:198-210 | `consolidate` keeps exactly the unexpired records of a namespace if they are within the capacity, and else evicts only lesser ones down to it; records are unchanged, and so are other namespaces. |
| `MemoryEngine.ClearEmpties` | packages/brain/src/memory/memory-engine.ts:232-241 | `clear` empties its namespace and leaves the records and indexes of the others alone. |
| `RateLimit.ApiGateway.ConsumeRateLimit` | packages/brain/src/gateway/api-gateway.ts:211-221 | Allows exactly a request with no window, after its window's end, or below the limit in it; opens a window in the first two cases and counts in the third. |
| `RateLimit.WindowsAreBounded` | packages/brain/src/gateway/api-gateway.ts:211-221 | With a non-decreasing clock each window admits at most max(1, limit) requests, and window starts are at least `windowMs` apart. |
| `RateLimit.IntervalBounded` | packages/brain/src/gateway/api-gateway.ts:126-132 | At most 2 * max(1, limit) - 1 requests are admitted in any half-open interval of length `windowMs`. |
| `RateLimit.IntervalBoundAttained` | packages/brain/src/gateway/api-gateway.ts:211-221 | That bound is attained, for every limit of at least 1 and window of at least 2 ms. |
| `RateLimit.RefusedWhenUsedUp` | packages/brain/src/gateway/api-gateway.ts:211-220 | A request is refused only inside a window, as long as the setting says, in which max(1, limit) requests have been admitted. |
| `RateLimit.KeyServedAlone` | packages/brain/src/gateway/api-gateway.ts:126-132 | However requests under different keys interleave, window and admissions of a key are those of its own requests alone. |
| `RateLimit.EveryKeyBounded` | packages/brain/src/gateway/api-gateway.ts:126-132 | So the interval bound holds for every key of a gateway that serves many. |
| `Reasoning.PremisesComeFirst` | packages/brain/src/reasoning/reasoning-engine.ts:136-152 | Every derived fact has premises, each of them initial or derived earlier. |
| `Reasoning.StatementsAreNew` | packages/brain/src/reasoning/reasoning-engine.ts:147-162 | Derived statements are new and pairwise distinct; confidences reach the minimum and stay in [0, 1]. |
| `Reasoning.DeriveIff` | packages/brain/src/reasoning/reasoning-engine.ts:136-159 | A rule derives a fact exactly if it matches some working facts, concludes from them a statement not yet known, and the product of its own confidence and the weakest premise's, held within 0 and 1, reaches the minimum; the fact has that statement and confidence and names rule and premises. |
| `Reasoning.AtMostPremises` | packages/brain/src/reasoning/reasoning-engine.ts:149-151 | A derived fact is no more confident than any of its premises. |
| `Reasoning.ConfidenceBounded` | packages/brain/src/reasoning/reasoning-engine.ts:149-151 | With rule confidences in [0, 1] a derived fact is no more confident than any initial fact in its derivation tree. |
| `ReasoningEngine.ReasoningEngine.ApplyRule` | packages/brain/src/reasoning/reasoning-engine.ts:133-192 | One rule: computes the specified step on facts, derivations and best conclusion, and tells whether it derived something and whether that is the goal. |
| `ReasoningEngine.ReasoningEngine.Pass` | packages/brain/src/reasoning/reasoning-engine.ts:133-192 | One pass: computes the specified pass over the rules of the strategy, stopping at the goal, and tells whether it derived anything. |
| `ReasoningEngine.ReasoningEngine.Infer` | packages/brain/src/reasoning/reasoning-engine.ts:113-222 | Computes the specified inference, unless the context is found inactive before one of at most `maxIterations` passes. |
| `ReasoningEngine.InferredConcludes` | packages/brain/src/reasoning/reasoning-engine.ts:113-222 | Derivations of every answer are well founded; it stops at the goal, at the cap, or where no rule can derive anything more; without a goal it concludes the first most confident derived statement. |
| `ReasoningEngine.ExhaustedIff` | packages/brain/src/reasoning/reasoning-engine.ts:197-220 | `exhausted` is reported if and only if there was no goal and all `maxIterations` passes were made, each of them deriving something. |
| `ReasoningEngine.IterationsCount` | packages/brain/src/reasoning/reasoning-engine.ts:129-196 | `iterations` counts the passes that derived something: all up to it did, and if it is below the cap the next would not. |
| `ReasoningEngine.PassInOrder` | packages/brain/src/reasoning/reasoning-engine.ts:133-168 | The facts a pass adds come from rules in the order in which they are registered, at most one each. |
| `ReasoningEngine.CappedYetNotExhausted` | packages/brain/src/reasoning/reasoning-engine.ts:197-209 | The same facts and rule with and without a goal that is not reached: both inferences stop at the cap, and only the one without is reported as exhausted. |
| `ReasoningEngine.GivenGoalBorrows` | packages/brain/src/reasoning/reasoning-engine.ts:198-210 | Asked for a statement that was given, `infer` answers as if asked for nothing, with the statement put in place of its conclusion. |
| `ReasoningEngine.GivenGoalConfidenceIff` | packages/brain/src/reasoning/reasoning-engine.ts:198-204 | It reports such a goal with its fact's own confidence if and only if that is the highest confidence among the facts derived without a goal, taken as 0 where none has any. |
| `ReasoningEngine.GivenGoalUnsure` | packages/brain/src/reasoning/reasoning-engine.ts:198-204 | One certain fact and no rules: asked for that fact, `infer` concludes it with confidence 0. |
| `ReasoningEngine.InferredConfidenceBounded` | packages/brain/src/reasoning/reasoning-engine.ts:149-151 | Whatever `infer` concludes from given facts, no derived fact is more confident than a given fact that its derivation goes back to. |
| `VectorMath.DotProduct` | packages/brain/src/utils/vector-math.ts:11-18 | The loop computes the inner product, or throws on empty or unequal dimensions. |
| `VectorMath.CosineSimilarity` | packages/brain/src/utils/vector-math.ts:27-31 | The cosine is the quotient of product and lengths and lies in [-1, 1]; it is 0 for a zero vector, and 1 (or -1) exactly for parallel non-zero vectors with a positive (or negative) product. |
| `VectorMath.CauchySchwarz` | packages/brain/src/utils/vector-math.ts:27-31 | The square of a dot product is at most the product of the squared lengths. |
| `VectorMath.CauchySchwarzEqualIff` | packages/brain/src/utils/vector-math.ts:27-31 | The two are equal exactly when the vectors are parallel. |
| `VectorMath.SquaredLength` | packages/brain/src/utils/vector-math.ts:20-25 | A squared length is never negative, and zero only for the zero vector. |
| `Decision.Decide` | packages/brain/src/decision/decision-engine.ts:81-157 | Throws exactly on missing options or criteria, a total weight not above 0 or a negative weight; selects, of the options that no constraint vetoes and no threshold rules out, one of maximal score, the first by id among those, and none exactly when all are ruled out; the confidence is that of its score and its margin over the best of the others. |
| `Decision.FullyConfidentIff` | packages/brain/src/decision/decision-engine.ts:143-144 | With a positive decisive margin the confidence is 1 if and only if the winner has the highest possible score and leads by the decisive margin. |
| `Decision.ConfidenceIsMean` | packages/brain/src/decision/decision-engine.ts:141-145 | The confidence is the mean of the score and of the margin over the decisive margin, that share at most 1 and the mean at least 0; not a number exactly for a margin of 0 over a decisive margin of 0. |
| `Decision.ConfidenceReflectsScore` | packages/brain/src/decision/decision-engine.ts:64-71 | The class comment has the confidence reflect the margin rather than the raw score; two decisions, on any options and criteria, whose winners lead by the same margin are equally confident if and only if the winners score equally. |
| `Decision.TiedYetUnequallySure` | packages/brain/src/decision/decision-engine.ts:134-144 | Two tied options have the margin 0 under any criterion, and confidence 1/2 or 0 as it is maximised or minimised. |
| `Decision.ScoreOption` | packages/brain/src/decision/decision-engine.ts:112-132 | The inner loop computes the weighted score and the threshold test. |
| `Decision.ScoreIsMean` | packages/brain/src/decision/decision-engine.ts:116-128 | The score is the mean of the option's normalised values weighted by the criteria's weights. |
| `Decision.NormalizedLies` | packages/brain/src/decision/decision-engine.ts:119-122 | An unlisted attribute counts as 0, and a normalised value is where the option lies between the least and the greatest value of the attribute, measured from the unwanted end. |
| `Decision.ScoreInRange` | packages/brain/src/decision/decision-engine.ts:116-128 | Every score is between 0 and 1. |
| `Decision.UnitsDoNotMatter` | packages/brain/src/decision/decision-engine.ts:64-71 | Rescaling an attribute by a positive factor and an offset changes no score and no elimination. |
| `Decision.DominanceRespected` | packages/brain/src/decision/decision-engine.ts:116-128 | An option at least as good on every criterion scores at least as high and meets every threshold the other meets. |
| `Decision.MinimizeIsMaximizeNegatedIff` | packages/brain/src/decision/decision-engine.ts:119-122 | Minimising an attribute is maximising its negative if and only if the attribute is not flat. |
| `Decision.FlatIdealIff` | packages/brain/src/decision/decision-engine.ts:119-122 | On a flat attribute an option counts as ideal, as the comment promises of all, if and only if the attribute is maximised; minimised, it scores 0. |
| `Decision.OnlyOptionScoresZero` | packages/brain/src/decision/decision-engine.ts:119-122 | So a decision with one option and one criterion to minimise gives that option the score 0. |
| `Streaming.RuntimeStreamHub.Publish` | packages/brain/src/runtime/streaming.ts:13-18 | The history stays the last `historyLimit` events published. |
| `Streaming.RuntimeStreamHub.Replay` | packages/brain/src/runtime/streaming.ts:20-21 | A reconnecting subscriber gets what follows the event it names, or the whole history when that is gone. |
| `Streaming.ReplayIsLast` | packages/brain/src/runtime/streaming.ts:12-21 | That is exactly the last min(missed, limit) of the events it missed, in order. |

## Left out

Across the whole model:

- Floating point: rounding, NaN, infinities and overflow, so the finiteness checks of the source always pass; limits and option counts are integers.
- Event publication, timestamps in records, names, descriptions, metadata and error texts beyond the kind of error.
- Real timers and promise scheduling: only the order of steps is modelled, not how long anything takes.
- Callbacks that call back into the component they were called from, except where delegation is modelled; a memory operation runs to its end before the next begins, and so do the methods of the plugin registry class (overlapping calls of `activate` and `deactivate` are a step machine of their own).
- Constructor checks of options are preconditions of the constructors.
- The locale that `localeCompare` orders ids by is an arbitrary total order, passed in.
- Strings are sequences of Unicode code points compared by value, where JavaScript compares UTF-16 code units; they agree below U+10000.

By component:

- Planning: `cancel`, strategies, `estimateCost`, step outputs, and updates outside the ready, running, completed, failed protocol in the theorems about runs (`updateStep` itself is modelled for every status).
- Workflow: `cancel`, delays between attempts, variables, a `when` that throws, and `run` or `compensate` handlers whose outcome depends on more than state and attempt number.
- Knowledge graph: `findNodes` and `findEdges`, edge properties, property values other than strings, and the order of a snapshot.
- KnowledgeGraph.KnowledgeGraph.ShortestPath: which of several optimal walks is returned is not fixed.
- Task scheduler: the delay of a timer, the failure handler, `list`, and the identifier check that `register` makes first.
- Storage: `updatedAt`, the copy that `deepClone` makes, a transaction handle used after its transaction ended, and `appendMany`.
- ScopedStore.ScopedKeyValueStore.WriteBody: the scoped `transaction` is modelled by its single operations.
- Plugins: the pattern of a version string is a flag; in the step machine of overlapping calls the plugins are fixed, so registering and removing one meanwhile is not modelled.
- Agents: mailboxes, the modes of `collaborate`, unregistering an agent while it has runs, `lastError`, and the tool calls an agent makes.
- Job queue: results and error texts of jobs, the dead-letter callback, what handlers do to the queue before their first await, and ids enqueued twice.
- BrainScheduler.BrainTaskScheduler.Drain: nobody else uses the queue during its awaits; overlapping calls are the step machine of DrainSteps, which returns sets of jobs rather than lists and need not terminate.
- Memory: lexical and semantic search, statistics, an engine without vectors or embeddings, kinds, tags and metadata of records, and backends that fail.
- Gateway: route matching, permissions, body schemas and middleware.
- Reasoning: rules that throw, `explain`, and the recorded steps beyond the fact, its rule and its premises.
- Decision.Decide: rationale, elimination reasons and history are not modelled.
- Vector math: `euclideanDistance`, `normalize` and `hashEmbedding`; square roots are passed in, so magnitudes are exact.
- Streaming: live delivery to subscribers and the WebSocket bridge.
- Everything that is wiring, I/O or cryptography: the applications, the kernel, the route table, logging, telemetry, configuration, tokens and encodings.
