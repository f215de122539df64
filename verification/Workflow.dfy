/**
 Workflow execution (`workflow-engine.ts`): steps run level by level, all steps
 of a level against the state at the start of the level; a failure stops the
 run and, when asked for, compensates the completed steps.
 */
module Workflow {
  import opened Prelude
  import opened Dag
  import CycleCheck
  import Levels

  type Json = string

  datatype State = State(input: Json, outputs: map<Id, Json>)

  /** What one call of a step's handler comes to; a timeout is a throw. */
  datatype CallOutcome = Returned(output: Json) | Threw(message: string)

  /** `compensate` tells whether the undo handler returns or throws. */
  datatype Step = Step(
    id: Id,
    dependsOn: seq<Id>,
    when: Option<State -> bool>,
    maxAttempts: int,
    run: (State, nat) -> CallOutcome,
    compensate: Option<State -> bool>
  )

  datatype StepStatus = Pending | Completed | Failed | Skipped | Undone
  datatype Execution = Execution(status: StepStatus, attempts: int, output: Option<Json>, error: Option<string>)
  datatype RunStatus = RunRunning | RunCompleted | RunFailed | RunCompensated

  /** What handlers and the run record can observe, in order. */
  datatype Event =
    | Began(id: Id)                        // the step's handler is called for the first time
    | Settled(id: Id, status: StepStatus)  // the step's execution is recorded
    | UndoCalled(id: Id)                   // the step's compensate handler is called

  datatype Run = Run(
    state: State,
    executions: map<Id, Execution>,
    completedOrder: seq<Id>,
    failure: Option<string>,
    log: seq<Event>
  )

  datatype RunRecord = RunRecord(
    workflowId: Id, status: RunStatus, state: State, executions: map<Id, Execution>, error: Option<string>)

  datatype Definition = Definition(steps: seq<Step>, compensateOnFailure: bool)

  type StepTable = map<Id, Step>

  function Ids(steps: seq<Step>): (ids: seq<Id>)
    ensures |ids| == |steps| && forall i :: 0 <= i < |ids| ==> ids[i] == steps[i].id
  {
    seq(|steps|, i requires 0 <= i < |steps| => steps[i].id)
  }

  function TableOf(steps: seq<Step>): StepTable
    requires Distinct(Ids(steps))
  {
    assert forall i :: 0 <= i < |steps| ==> Ids(steps)[i] == steps[i].id;
    map i | 0 <= i < |steps| :: steps[i].id := steps[i]
  }

  function GraphOf(table: StepTable): Graph {
    map v | v in table :: table[v].dependsOn
  }

  predicate KnownDependencies(steps: seq<Step>) {
    forall i, d :: 0 <= i < |steps| && d in steps[i].dependsOn ==> d in Ids(steps)
  }

  /** What `register` demands of a definition. */
  ghost predicate Registrable(definition: Definition) {
    && definition.steps != []
    && Distinct(Ids(definition.steps))
    && KnownDependencies(definition.steps)
    && !HasCycle(GraphOf(TableOf(definition.steps)))
  }

  /** The retry loop: the first attempt that returns settles the step. */
  function Attempt(step: Step, s: State, attempt: nat, lastError: string): Execution
    decreases step.maxAttempts - attempt
  {
    if attempt > step.maxAttempts then Execution(Failed, step.maxAttempts, None, Some(lastError))
    else
      match step.run(s, attempt)
      case Returned(output) => Execution(Completed, attempt, Some(output), None)
      case Threw(message) => Attempt(step, s, attempt + 1, message)
  }

  predicate Satisfied(executions: map<Id, Execution>, step: Step) {
    forall d :: d in step.dependsOn ==> d in executions && executions[d].status in {Completed, Skipped}
  }

  predicate WantsToRun(step: Step, s: State) {
    step.when.None? || step.when.value(s)
  }

  /** The handler is called: `when` allows it and the dependency guard does not fire. */
  predicate Runs(step: Step, r: Run) {
    WantsToRun(step, r.state) && Satisfied(r.executions, step)
  }

  function OutcomeOf(step: Step, r: Run): Execution {
    if Runs(step, r) then Attempt(step, r.state, 1, "Step failed")
    else Execution(Skipped, 0, None, None)
  }

  function SettleOne(id: Id, e: Execution, r: Run): Run {
    var recorded := r.(executions := r.executions[id := e], log := r.log + [Settled(id, e.status)]);
    match e.status
    case Completed =>
      recorded.(completedOrder := r.completedOrder + [id],
                state := r.state.(outputs := r.state.outputs[id := e.output.GetOr("null")]))
    case Failed => recorded.(failure := Some(e.error.GetOr("Step failed")))
    case _ => recorded
  }

  function Settle(level: seq<Id>, outcomes: seq<Execution>, r: Run): Run
    requires |level| == |outcomes|
  {
    if level == [] then r
    else
      var last := |level| - 1;
      SettleOne(level[last], outcomes[last], Settle(level[..last], outcomes[..last], r))
  }

  function Outcomes(table: StepTable, level: seq<Id>, r: Run): (outcomes: seq<Execution>)
    requires forall v :: v in level ==> v in table
    ensures |outcomes| == |level|
  {
    seq(|level|, i requires 0 <= i < |level| => OutcomeOf(table[level[i]], r))
  }

  function Beginnings(table: StepTable, level: seq<Id>, r: Run): seq<Event>
    requires forall v :: v in level ==> v in table
  {
    if level == [] then []
    else
      var last := |level| - 1;
      Beginnings(table, level[..last], r) + (if Runs(table[level[last]], r) then [Began(level[last])] else [])
  }

  /** One level: every step starts from the state before the level; then the outcomes are recorded in order. */
  function RunLevel(table: StepTable, level: seq<Id>, r: Run): Run
    requires forall v :: v in level ==> v in table
  {
    Settle(level, Outcomes(table, level, r), r.(log := r.log + Beginnings(table, level, r)))
  }

  /** `runStep` throws out of the whole run when it meets an attempt limit below one. */
  predicate Misconfigured(table: StepTable, level: seq<Id>, r: Run)
    requires forall v :: v in level ==> v in table
  {
    exists v :: v in level && Runs(table[v], r) && table[v].maxAttempts < 1
  }

  predicate Known(table: StepTable, levels: seq<seq<Id>>) {
    forall k :: 0 <= k < |levels| ==> forall v :: v in levels[k] ==> v in table
  }

  /** The levels up to the first that leaves a failure; `active` tells whether the caller's context still is. */
  function RunLevels(table: StepTable, levels: seq<seq<Id>>, active: nat -> bool, r: Run): Result<Run>
    requires Known(table, levels)
  {
    if levels == [] then Ok(r)
    else
      var last := |levels| - 1;
      match RunLevels(table, levels[..last], active, r)
      case Err(e) => Err(e)
      case Ok(before) =>
        if before.failure.Some? then Ok(before)
        else if !active(last) then Err(TimedOut)
        else if Misconfigured(table, levels[last], before) then Err(InvalidArgument)
        else Ok(RunLevel(table, levels[last], before))
  }

  function Initial(steps: seq<Step>, input: Json): Run
    requires Distinct(Ids(steps))
  {
    var table := TableOf(steps);
    Run(State(input, map[]), map v | v in table :: Execution(Pending, 0, None, None), [], None, [])
  }

  /** The compensation loop over the completed steps, last completed first. */
  function Undo(table: StepTable, ids: seq<Id>, r: Run): Run
    decreases ids
  {
    if ids == [] then r
    else Undo(table, ids[..|ids| - 1], UndoOne(table, ids[|ids| - 1], r))
  }

  function UndoOne(table: StepTable, id: Id, r: Run): Run {
    if id !in table || table[id].compensate.None? then r
    else
      var called := r.(log := r.log + [UndoCalled(id)]);
      if table[id].compensate.value(r.state) && id in r.executions
      then called.(executions := r.executions[id := r.executions[id].(status := Undone)])
      else called
  }

  function Finish(definition: Definition, table: StepTable, r: Run): Run {
    if r.failure.Some? && definition.compensateOnFailure then Undo(table, r.completedOrder, r) else r
  }

  function StatusOf(definition: Definition, r: Run): RunStatus {
    if r.failure.None? then RunCompleted
    else if definition.compensateOnFailure then RunCompensated
    else RunFailed
  }

  function RecordOf(workflowId: Id, definition: Definition, r: Run): RunRecord {
    RunRecord(workflowId, StatusOf(definition, r), r.state, r.executions, r.failure)
  }

  lemma StopsEarly(table: StepTable, levels: seq<seq<Id>>, active: nat -> bool, start: Run, k: nat)
    requires Known(table, levels) && k <= |levels|
    requires RunLevels(table, levels[..k], active, start).Err? || RunLevels(table, levels[..k], active, start).value.failure.Some?
    ensures RunLevels(table, levels, active, start) == RunLevels(table, levels[..k], active, start)
    decreases |levels|
  {
    if k == |levels| {
      assert levels[..k] == levels;
    } else {
      assert levels[..|levels| - 1][..k] == levels[..k];
      StopsEarly(table, levels[..|levels| - 1], active, start, k);
    }
  }

  lemma LevelsKnown(table: StepTable, levels: seq<seq<Id>>, ids: seq<Id>)
    requires Levels.IsLevels(GraphOf(table), ids, levels) && table.Keys == Elements(ids)
    ensures Known(table, levels)
  {
    forall k, v | 0 <= k < |levels| && v in levels[k]
      ensures v in table
    {
      assert v in Levels.OfDepth(GraphOf(table), ids, k);
    }
  }

  class WorkflowEngine {
    var definitions: map<Id, Definition>
    var runs: map<Id, RunRecord>

    constructor ()
      ensures Valid() && definitions == map[] && runs == map[]
    {
      definitions, runs := map[], map[];
    }

    ghost predicate Valid()
      reads this
    {
      forall w :: w in definitions ==> Registrable(definitions[w])
    }

    method Register(id: Id, definition: Definition) returns (r: Result<()>)
      requires Valid()
      modifies this`definitions
      ensures Valid()
      ensures r.Ok? <==> Registrable(definition) && id !in old(definitions)
      ensures definitions == if r.Ok? then old(definitions)[id := definition] else old(definitions)
    {
      if definition.steps == [] { return Err(InvalidArgument); }
      if id in definitions { return Err(Duplicate); }
      var seen: set<Id> := {};
      for i := 0 to |definition.steps|
        invariant seen == Elements(Ids(definition.steps)[..i])
        invariant Distinct(Ids(definition.steps)[..i])
      {
        assert Ids(definition.steps)[..i + 1] == Ids(definition.steps)[..i] + [Ids(definition.steps)[i]];
        if definition.steps[i].id in seen { return Err(InvalidArgument); }
        seen := seen + {definition.steps[i].id};
      }
      assert Ids(definition.steps)[..|definition.steps|] == Ids(definition.steps);
      if !KnownDependencies(definition.steps) { return Err(InvalidArgument); }
      var thrown, _ := CycleCheck.AssertAcyclic(GraphOf(TableOf(definition.steps)), Ids(definition.steps));
      if thrown.Some? { return Err(CycleFound(thrown.value)); }
      definitions := definitions[id := definition];
      return Ok(());
    }

    /** `runId` is a fresh id; a run that throws leaves its first record behind. */
    method Execute(workflowId: Id, runId: Id, input: Json, active: nat -> bool)
      returns (r: Result<RunRecord>, ghost levels: seq<seq<Id>>)
      requires Valid()
      modifies this`runs
      ensures workflowId !in definitions ==> r == Err(NotFound) && runs == old(runs)
      ensures workflowId in definitions ==> IsPlanFor(definitions[workflowId], levels)
      ensures workflowId in definitions ==> r == ResultOf(workflowId, definitions[workflowId], levels, active, input)
      ensures workflowId in definitions ==>
        runs == old(runs)[runId := if r.Ok? then r.value else Unfinished(workflowId, definitions[workflowId], input)]
    {
      if workflowId !in definitions { return Err(NotFound), []; }
      runs := runs[runId := Unfinished(workflowId, definitions[workflowId], input)];
      r, levels := RunDefinition(workflowId, definitions[workflowId], input, active);
      if r.Ok? {
        Overwritten(old(runs), runId, Unfinished(workflowId, definitions[workflowId], input), r.value);
        runs := runs[runId := r.value];
      }
    }
  }

  lemma Overwritten(runs: map<Id, RunRecord>, id: Id, first: RunRecord, second: RunRecord)
    ensures runs[id := first][id := second] == runs[id := second]
  {
  }

  /** What a run leaves in the engine's records, or the error it throws. */
  function ResultOf(workflowId: Id, definition: Definition, levels: seq<seq<Id>>, active: nat -> bool, input: Json): Result<RunRecord>
    requires Distinct(Ids(definition.steps)) && Known(TableOf(definition.steps), levels)
  {
    match Outcome(definition, levels, active, input)
    case Err(e) => Err(e)
    case Ok(run) => Ok(RecordOf(workflowId, definition, run))
  }

  function Unfinished(workflowId: Id, definition: Definition, input: Json): RunRecord
    requires Distinct(Ids(definition.steps))
  {
    var start := Initial(definition.steps, input);
    RunRecord(workflowId, RunRunning, start.state, start.executions, None)
  }

  ghost predicate IsPlanFor(definition: Definition, levels: seq<seq<Id>>) {
    && Distinct(Ids(definition.steps))
    && Levels.IsLevels(GraphOf(TableOf(definition.steps)), Ids(definition.steps), levels)
    && Known(TableOf(definition.steps), levels)
  }

  /** The run that `execute` makes of a definition, or the error it throws. */
  function Outcome(definition: Definition, levels: seq<seq<Id>>, active: nat -> bool, input: Json): Result<Run>
    requires Distinct(Ids(definition.steps)) && Known(TableOf(definition.steps), levels)
  {
    match RunLevels(TableOf(definition.steps), levels, active, Initial(definition.steps, input))
    case Err(e) => Err(e)
    case Ok(run) => Ok(Finish(definition, TableOf(definition.steps), run))
  }

  method RunDefinition(workflowId: Id, definition: Definition, input: Json, active: nat -> bool)
    returns (r: Result<RunRecord>, ghost levels: seq<seq<Id>>)
    requires Registrable(definition)
    ensures IsPlanFor(definition, levels)
    ensures r == ResultOf(workflowId, definition, levels, active, input)
  {
    var table := TableOf(definition.steps);
    DefinitionClosed(definition);
    var computed := Levels.Compute(GraphOf(table), Ids(definition.steps));
    levels := computed.value;
    LevelsKnown(table, levels, Ids(definition.steps));
    var outcome := ExecuteLevels(table, computed.value, active, Initial(definition.steps, input));
    if outcome.Err? { return Err(outcome.error), levels; }
    var run := outcome.value;
    if run.failure.Some? && definition.compensateOnFailure {
      run := Compensate(table, run);
    }
    r := Ok(RecordOf(workflowId, definition, run));
  }

  /** The loop over the levels. */
  method ExecuteLevels(table: StepTable, levels: seq<seq<Id>>, active: nat -> bool, start: Run) returns (r: Result<Run>)
    requires Known(table, levels)
    ensures r == RunLevels(table, levels, active, start)
  {
    var run := start;
    for k := 0 to |levels|
      invariant RunLevels(table, levels[..k], active, start) == Ok(run)
    {
      assert levels[..k + 1][..k] == levels[..k];
      if run.failure.Some? {
        StopsEarly(table, levels, active, start, k);
        return Ok(run);
      }
      if !active(k) {
        StopsEarly(table, levels, active, start, k + 1);
        return Err(TimedOut);
      }
      if Misconfigured(table, levels[k], run) {
        StopsEarly(table, levels, active, start, k + 1);
        return Err(InvalidArgument);
      }
      run := ExecuteLevel(table, levels[k], run);
    }
    assert levels[..|levels|] == levels;
    return Ok(run);
  }

  /** The compensation loop. */
  method Compensate(table: StepTable, failed: Run) returns (run: Run)
    ensures run == Undo(table, failed.completedOrder, failed)
  {
    run := failed;
    var i := |failed.completedOrder|;
    assert failed.completedOrder[..i] == failed.completedOrder;
    while i > 0
      invariant 0 <= i <= |failed.completedOrder|
      invariant Undo(table, failed.completedOrder[..i], run) == Undo(table, failed.completedOrder, failed)
    {
      assert failed.completedOrder[..i][..i - 1] == failed.completedOrder[..i - 1];
      run := UndoOne(table, failed.completedOrder[i - 1], run);
      i := i - 1;
    }
  }

  lemma DefinitionClosed(definition: Definition)
    requires Registrable(definition)
    ensures Closed(GraphOf(TableOf(definition.steps)))
    ensures GraphOf(TableOf(definition.steps)).Keys == Elements(Ids(definition.steps))
  {
    var steps := definition.steps;
    TableKeys(steps);
    forall v, d | v in TableOf(steps) && d in TableOf(steps)[v].dependsOn
      ensures d in TableOf(steps)
    {
      var i :| 0 <= i < |steps| && steps[i].id == v;
    }
  }

  lemma TableKeys(steps: seq<Step>)
    requires Distinct(Ids(steps))
    ensures TableOf(steps).Keys == Elements(Ids(steps))
    ensures forall i :: 0 <= i < |steps| ==> steps[i].id in TableOf(steps) && TableOf(steps)[steps[i].id] == steps[i]
  {
    assert forall i :: 0 <= i < |steps| ==> Ids(steps)[i] in Ids(steps);
  }

  /** `Promise.all` over the level, then the loop that records the outcomes. */
  method ExecuteLevel(table: StepTable, level: seq<Id>, before: Run) returns (run: Run)
    requires forall v :: v in level ==> v in table
    requires !Misconfigured(table, level, before)
    ensures run == RunLevel(table, level, before)
  {
    var begun, outcomes := RunSteps(table, level, before);
    run := RecordOutcomes(level, outcomes, begun);
  }

  /** Every step of the level is run, or skipped, from the state before the level. */
  method RunSteps(table: StepTable, level: seq<Id>, before: Run) returns (run: Run, outcomes: seq<Execution>)
    requires forall v :: v in level ==> v in table
    requires !Misconfigured(table, level, before)
    ensures outcomes == Outcomes(table, level, before)
    ensures run == before.(log := before.log + Beginnings(table, level, before))
  {
    run := before;
    outcomes := [];
    for i := 0 to |level|
      invariant outcomes == Outcomes(table, level[..i], before)
      invariant run == before.(log := before.log + Beginnings(table, level[..i], before))
    {
      var step := table[level[i]];
      assert level[..i + 1][..i] == level[..i];
      var execution := Execution(Skipped, 0, None, None);
      if Runs(step, before) {
        run := run.(log := run.log + [Began(level[i])]);
        execution := RunStep(step, before.state);
      }
      outcomes := outcomes + [execution];
    }
    assert level[..|level|] == level;
  }

  method RecordOutcomes(level: seq<Id>, outcomes: seq<Execution>, begun: Run) returns (run: Run)
    requires |level| == |outcomes|
    ensures run == Settle(level, outcomes, begun)
  {
    run := begun;
    for i := 0 to |level|
      invariant run == Settle(level[..i], outcomes[..i], begun)
    {
      assert level[..i + 1][..i] == level[..i] && outcomes[..i + 1][..i] == outcomes[..i];
      run := SettleOne(level[i], outcomes[i], run);
    }
    assert outcomes[..|level|] == outcomes && level[..|level|] == level;
  }

  /** The retry loop of one step. */
  method RunStep(step: Step, s: State) returns (e: Execution)
    requires step.maxAttempts >= 1
    ensures e == Attempt(step, s, 1, "Step failed")
  {
    var lastError := "Step failed";
    for attempt := 1 to step.maxAttempts + 1
      invariant Attempt(step, s, attempt, lastError) == Attempt(step, s, 1, "Step failed")
    {
      match step.run(s, attempt)
      case Returned(output) => return Execution(Completed, attempt, Some(output), None);
      case Threw(message) => lastError := message;
    }
    return Execution(Failed, step.maxAttempts, None, Some(lastError));
  }
}
