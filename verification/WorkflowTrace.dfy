/** What the record of a run says about its steps, in terms of their handlers and of the states they were called with. */
module WorkflowTrace {
  import opened Prelude
  import opened Dag
  import opened Workflow
  import opened WorkflowRuns
  import opened WorkflowSaga

  predicate Wanted(step: Step, s: State) {
    match step.when
    case None => true
    case Some(condition) => condition(s)
  }

  predicate ThrewUntil(step: Step, s: State, n: int) {
    forall a: nat :: 1 <= a < n ==> step.run(s, a).Threw?
  }

  /** The execution is what the handler, called in this state with attempt 1, 2, .. up to the limit, makes of the step. */
  ghost predicate Explains(step: Step, s: State, e: Execution) {
    match e.status
    case Skipped => !Wanted(step, s) && e == Execution(Skipped, 0, None, None)
    case Completed =>
      && Wanted(step, s) && 1 <= e.attempts <= step.maxAttempts && ThrewUntil(step, s, e.attempts)
      && e.output.Some? && step.run(s, e.attempts) == Returned(e.output.value) && e.error.None?
    case Failed =>
      && Wanted(step, s) && 1 <= e.attempts == step.maxAttempts && ThrewUntil(step, s, step.maxAttempts + 1)
      && e.error.Some? && step.run(s, step.maxAttempts) == Threw(e.error.value) && e.output.None?
    case _ => false
  }

  lemma ReturnsLate(step: Step, s: State, n: int, a: nat)
    requires ThrewUntil(step, s, n) && a >= 1 && step.run(s, a).Returned?
    ensures a >= n
  {
  }

  /** No two executions are explained by the same handler and state. */
  lemma {:induction false} ExplainsUnique(step: Step, s: State, e: Execution, f: Execution)
    requires Explains(step, s, e) && Explains(step, s, f)
    ensures e == f
  {
    if e.status == Completed {
      ReturnsLate(step, s, if f.status == Failed then step.maxAttempts + 1 else f.attempts, e.attempts);
    }
    if f.status == Completed {
      ReturnsLate(step, s, if e.status == Failed then step.maxAttempts + 1 else e.attempts, f.attempts);
    }
  }

  lemma {:induction false} AttemptExplained(step: Step, s: State, attempt: nat, lastError: string)
    requires Wanted(step, s) && 1 <= attempt <= step.maxAttempts + 1 && step.maxAttempts >= 1 && ThrewUntil(step, s, attempt)
    requires attempt > 1 ==> step.run(s, attempt - 1) == Threw(lastError)
    ensures Explains(step, s, Attempt(step, s, attempt, lastError))
    decreases step.maxAttempts - attempt
  {
    if attempt <= step.maxAttempts && step.run(s, attempt).Threw? {
      AttemptExplained(step, s, attempt + 1, step.run(s, attempt).message);
    }
  }

  /** From the state before a level to the state after it: the outputs of its completed steps are added. */
  ghost predicate Grows(level: seq<Id>, executions: map<Id, Execution>, before: State, after: State) {
    && after.input == before.input
    && (forall v :: v in after.outputs <==> v in before.outputs || CompletedIn(level, executions, v))
    && forall v :: v in after.outputs ==>
      after.outputs[v] == if CompletedIn(level, executions, v) then executions[v].output.GetOr("null") else before.outputs[v]
  }

  predicate CompletedIn(level: seq<Id>, executions: map<Id, Execution>, v: Id) {
    v in level && v in executions && executions[v].status == Completed
  }

  predicate FailedIn(level: seq<Id>, executions: map<Id, Execution>, v: Id) {
    v in level && v in executions && executions[v].status == Failed
  }

  ghost predicate LevelExplained(table: StepTable, level: seq<Id>, executions: map<Id, Execution>, before: State, after: State) {
    && (forall v :: v in level ==> v in table && v in executions && Explains(table[v], before, executions[v]))
    && Grows(level, executions, before, after)
  }

  /** The failure of a level is the error of its last step that failed. */
  ghost predicate FailureOf(level: seq<Id>, executions: map<Id, Execution>, failure: Option<string>) {
    if failure.None? then forall v :: !FailedIn(level, executions, v)
    else exists i :: 0 <= i < |level| && LastFailed(level, executions, i, failure)
  }

  ghost predicate LastFailed(level: seq<Id>, executions: map<Id, Execution>, i: nat, failure: Option<string>)
    requires i < |level|
  {
    FailedIn(level, executions, level[i]) && executions[level[i]].error == failure && forall j :: i < j < |level| ==> !FailedIn(level, executions, level[j])
  }

  ghost predicate LastOutcome(outcomes: seq<Execution>, i: nat, failure: Option<string>) {
    && i < |outcomes| && outcomes[i].status == Failed && outcomes[i].error == failure
    && forall j :: i < j < |outcomes| ==> outcomes[j].status != Failed
  }

  predicate NoneFailed(outcomes: seq<Execution>) {
    forall e :: e in outcomes ==> e.status != Failed
  }

  /** The outcomes of a level, recorded in order, leave the error of the last that failed. */
  lemma {:induction false} SettleFailure(level: seq<Id>, outcomes: seq<Execution>, r: Run)
    requires |level| == |outcomes| && forall e :: e in outcomes && e.status == Failed ==> e.error.Some?
    ensures NoneFailed(outcomes) ==> Settle(level, outcomes, r).failure == r.failure
    ensures !NoneFailed(outcomes) ==> exists i :: LastOutcome(outcomes, i, Settle(level, outcomes, r).failure)
  {
    if level != [] {
      var last := |level| - 1;
      var front, failure := outcomes[..last], Settle(level, outcomes, r).failure;
      assert outcomes == front + [outcomes[last]];
      SettleFailure(level[..last], front, r);
      if outcomes[last].status == Failed {
        assert LastOutcome(outcomes, last, failure);
      } else if !NoneFailed(front) {
        var i :| LastOutcome(front, i, failure);
        assert LastOutcome(outcomes, i, failure);
      }
    }
  }

  /** `states[k]` is the state before level k, and the run has executed all levels but the last of these states is for. */
  ghost predicate Traced(table: StepTable, levels: seq<seq<Id>>, input: Json, r: Run, states: seq<State>) {
    && 1 <= |states| <= |levels| + 1 && states[0] == State(input, map[]) && r.state == states[|states| - 1]
    && r.executions.Keys == table.Keys
    && (forall k :: 0 <= k < |states| - 1 ==> LevelExplained(table, levels[k], r.executions, states[k], states[k + 1]))
    && (forall v :: v in table ==> (exists k :: 0 <= k < |states| - 1 && v in levels[k]) || r.executions[v] == Execution(Pending, 0, None, None))
    && (forall k, v :: 0 <= k < |states| - 2 ==> !FailedIn(levels[k], r.executions, v))
    && (if |states| == 1 then r.failure.None? else FailureOf(levels[|states| - 2], r.executions, r.failure))
  }

  /** While nothing has failed, a settled step is completed or skipped, so the dependency guard lets its dependents through. */
  lemma SettledSatisfies(table: StepTable, levels: seq<seq<Id>>, input: Json, r: Run, states: seq<State>, step: Step)
    requires Traced(table, levels, input, r, states) && r.failure.None?
    requires forall d :: d in step.dependsOn ==> d in Upto(levels, |states| - 1)
    ensures Satisfied(r.executions, step)
  {
    forall d | d in step.dependsOn
      ensures d in r.executions && r.executions[d].status in {Completed, Skipped}
    {
      UptoMember(levels, |states| - 1, d);
      var k :| 0 <= k < |states| - 1 && d in levels[k];
      assert LevelExplained(table, levels[k], r.executions, states[k], states[k + 1]);
      assert !FailedIn(levels[k], r.executions, d);
    }
  }

  lemma OutcomeExplained(step: Step, r: Run)
    requires Satisfied(r.executions, step) && (Wanted(step, r.state) ==> step.maxAttempts >= 1)
    ensures Explains(step, r.state, OutcomeOf(step, r))
  {
    if Wanted(step, r.state) { AttemptExplained(step, r.state, 1, "Step failed"); }
  }

  /** What a level makes of a run all of whose settled steps were completed or skipped. */
  lemma RunLevelExplained(table: StepTable, level: seq<Id>, r: Run, done: set<Id>)
    requires Fits(table, level, done) && r.executions.Keys == table.Keys && !Misconfigured(table, level, r) && r.failure.None?
    requires forall v :: v in level ==> Satisfied(r.executions, table[v])
    requires forall v :: v in r.state.outputs ==> v in done
    ensures var q := RunLevel(table, level, r);
      && q.executions.Keys == table.Keys && LevelExplained(table, level, q.executions, r.state, q.state)
      && FailureOf(level, q.executions, q.failure) && forall v :: v in table && v !in level ==> q.executions[v] == r.executions[v]
  {
    var outcomes := Outcomes(table, level, r);
    var logged, q := r.(log := r.log + Beginnings(table, level, r)), RunLevel(table, level, r);
    SettleEffect(level, outcomes, logged);
    forall i | 0 <= i < |level|
      ensures Explains(table[level[i]], r.state, outcomes[i]) && Recorded(q, level[i], outcomes[i])
    {
      assert Wanted(table[level[i]], r.state) ==> Runs(table[level[i]], r);
      OutcomeExplained(table[level[i]], r);
    }
    forall v | v in table && v !in level
      ensures q.executions[v] == r.executions[v]
    {
      assert Untouched(logged, q, v);
    }
    LevelGrows(level, outcomes, logged, q);
    SettleFailure(level, outcomes, logged);
    LevelFailure(level, outcomes, q);
  }

  lemma LevelGrows(level: seq<Id>, outcomes: seq<Execution>, r: Run, q: Run)
    requires |level| == |outcomes| && Distinct(level) && q.state.input == r.state.input
    requires forall v :: v in level ==> v !in r.state.outputs
    requires forall i :: 0 <= i < |level| ==> Recorded(q, level[i], outcomes[i])
    requires forall v :: v !in level ==> Untouched(r, q, v)
    ensures Grows(level, q.executions, r.state, q.state)
  {
    forall v
      ensures v in q.state.outputs <==> v in r.state.outputs || CompletedIn(level, q.executions, v)
      ensures v in q.state.outputs ==>
        q.state.outputs[v] == if CompletedIn(level, q.executions, v) then q.executions[v].output.GetOr("null") else r.state.outputs[v]
    {
      if v in level {
        var i :| 0 <= i < |level| && level[i] == v;
        assert Recorded(q, level[i], outcomes[i]);
      } else {
        assert Untouched(r, q, v);
      }
    }
  }

  lemma LevelFailure(level: seq<Id>, outcomes: seq<Execution>, q: Run)
    requires |level| == |outcomes| && forall i :: 0 <= i < |level| ==> Recorded(q, level[i], outcomes[i])
    requires if NoneFailed(outcomes) then q.failure.None? else exists i :: LastOutcome(outcomes, i, q.failure)
    requires forall e :: e in outcomes && e.status == Failed ==> e.error.Some?
    ensures FailureOf(level, q.executions, q.failure)
  {
    forall i | 0 <= i < |level|
      ensures FailedIn(level, q.executions, level[i]) <==> outcomes[i].status == Failed
      ensures level[i] in q.executions && q.executions[level[i]] == outcomes[i] && outcomes[i] in outcomes
    {
      assert Recorded(q, level[i], outcomes[i]);
    }
    if !NoneFailed(outcomes) {
      var i :| LastOutcome(outcomes, i, q.failure);
      assert LastFailed(level, q.executions, i, q.failure);
    }
  }

  /** One more level of a run extends its trace. */
  lemma TraceExtends(table: StepTable, levels: seq<seq<Id>>, input: Json, r: Run, states: seq<State>)
    requires FitsUpto(table, levels) && Traced(table, levels, input, r, states) && r.failure.None? && |states| <= |levels|
    requires Known(table, levels) && !Misconfigured(table, levels[|states| - 1], r)
    ensures var q := RunLevel(table, levels[|states| - 1], r); Traced(table, levels, input, q, states + [q.state])
  {
    var n := |states| - 1;
    var level, done := levels[n], Upto(levels, n);
    var q := RunLevel(table, level, r);
    FitsAt(table, levels, n);
    forall v | v in level
      ensures Satisfied(r.executions, table[v])
    {
      SettledSatisfies(table, levels, input, r, states, table[v]);
    }
    OutputsReached(table, levels, input, r, states, n);
    RunLevelExplained(table, level, r, done);
    forall k | 0 <= k < n
      ensures LevelExplained(table, levels[k], q.executions, states[k], states[k + 1])
      ensures forall v :: v in levels[k] ==> v !in level && v in table && q.executions[v] == r.executions[v]
    {
      EarlierStays(table, levels, k, n, r.executions, q.executions, states[k], states[k + 1]);
    }
    TraceAppend(table, levels, input, r, q, states);
  }

  lemma EarlierStays(table: StepTable, levels: seq<seq<Id>>, k: nat, n: nat, e: map<Id, Execution>, f: map<Id, Execution>, before: State, after: State)
    requires FitsUpto(table, levels) && k < n < |levels| && LevelExplained(table, levels[k], e, before, after)
    requires f.Keys == e.Keys == table.Keys && forall v :: v in table && v !in levels[n] ==> f[v] == e[v]
    ensures LevelExplained(table, levels[k], f, before, after)
    ensures forall v :: v in levels[k] ==> v !in levels[n] && v in table && f[v] == e[v]
  {
    forall v | v in levels[k]
      ensures v !in levels[n] && f[v] == e[v]
    {
      OwnLevelOnly(table, levels, k, n, v);
    }
    assert forall v :: CompletedIn(levels[k], e, v) <==> CompletedIn(levels[k], f, v);
  }

  lemma {:induction false} OutputsReached(table: StepTable, levels: seq<seq<Id>>, input: Json, r: Run, states: seq<State>, k: nat)
    requires Traced(table, levels, input, r, states) && k < |states|
    ensures forall v :: v in states[k].outputs ==> v in Upto(levels, k)
  {
    if k > 0 {
      OutputsReached(table, levels, input, r, states, k - 1);
      assert LevelExplained(table, levels[k - 1], r.executions, states[k - 1], states[k - 1 + 1]);
    }
  }

  lemma TraceAppend(table: StepTable, levels: seq<seq<Id>>, input: Json, r: Run, q: Run, states: seq<State>)
    requires Traced(table, levels, input, r, states) && |states| <= |levels| && r.failure.None? && q.executions.Keys == table.Keys
    requires LevelExplained(table, levels[|states| - 1], q.executions, states[|states| - 1], q.state)
    requires FailureOf(levels[|states| - 1], q.executions, q.failure)
    requires forall v :: v in table && v !in levels[|states| - 1] ==> q.executions[v] == r.executions[v]
    requires forall k :: 0 <= k < |states| - 1 ==>
      && LevelExplained(table, levels[k], q.executions, states[k], states[k + 1])
      && forall v :: v in levels[k] ==> v in table && q.executions[v] == r.executions[v]
    ensures Traced(table, levels, input, q, states + [q.state])
  {
    var longer := states + [q.state];
    assert longer[..|states|] == states;
    forall k | 0 <= k < |longer| - 1
      ensures LevelExplained(table, levels[k], q.executions, longer[k], longer[k + 1])
    {
    }
    NotYetPending(table, levels, r, q, |states| - 1);
    NoneFailedYet(levels, r, q, |states| - 1);
  }

  lemma NotYetPending(table: StepTable, levels: seq<seq<Id>>, r: Run, q: Run, n: nat)
    requires n < |levels| && r.executions.Keys == q.executions.Keys == table.Keys
    requires forall v :: v in table ==> (exists k :: 0 <= k < n && v in levels[k]) || r.executions[v] == Execution(Pending, 0, None, None)
    requires forall v :: v in table && v !in levels[n] ==> q.executions[v] == r.executions[v]
    ensures forall v :: v in table ==> (exists k :: 0 <= k < n + 1 && v in levels[k]) || q.executions[v] == Execution(Pending, 0, None, None)
  {
  }

  lemma NoneFailedYet(levels: seq<seq<Id>>, r: Run, q: Run, n: nat)
    requires n < |levels| && r.failure.None?
    requires forall k, v :: 0 <= k < n - 1 ==> !FailedIn(levels[k], r.executions, v)
    requires n > 0 ==> FailureOf(levels[n - 1], r.executions, r.failure)
    requires forall k :: 0 <= k < n ==> forall v :: v in levels[k] && v in q.executions ==> v in r.executions && q.executions[v] == r.executions[v]
    ensures forall k, v :: 0 <= k < n ==> !FailedIn(levels[k], q.executions, v)
  {
    forall k, v | 0 <= k < n
      ensures !FailedIn(levels[k], q.executions, v)
    {
      assert !FailedIn(levels[k], r.executions, v);
    }
  }

  /** The log holds a beginning for exactly the steps whose handler has been called. */
  ghost predicate CallsLogged(table: StepTable, r: Run) {
    forall v :: v in table && v in r.executions ==> (Began(v) in r.log <==> r.executions[v].status == Completed || r.executions[v].status == Failed)
  }

  lemma {:induction false} BeginningsOf(table: StepTable, level: seq<Id>, r: Run, v: Id)
    requires forall w :: w in level ==> w in table
    ensures Began(v) in Beginnings(table, level, r) <==> v in level && Runs(table[v], r)
  {
    if level == [] {
    } else {
      BeginningsOf(table, level[..|level| - 1], r, v);
    }
  }

  lemma NoBeginnings(level: seq<Id>, outcomes: seq<Execution>, v: Id)
    requires |level| == |outcomes|
    ensures Began(v) !in Settlements(level, outcomes)
  {
  }

  lemma CallsLoggedFurther(table: StepTable, level: seq<Id>, r: Run, q: Run, v: Id)
    requires (forall w :: w in level ==> w in table) && q == RunLevel(table, level, r) && v in table && v in r.executions && v in q.executions
    requires Began(v) in r.log <==> r.executions[v].status == Completed || r.executions[v].status == Failed
    requires if v in level then r.executions[v].status == Pending && q.executions[v] == OutcomeOf(table[v], r) else q.executions[v] == r.executions[v]
    ensures Began(v) in q.log <==> q.executions[v].status == Completed || q.executions[v].status == Failed
  {
    var outcomes, logged := Outcomes(table, level, r), r.(log := r.log + Beginnings(table, level, r));
    SettleLog(level, outcomes, logged);
    NoBeginnings(level, outcomes, v);
    BeginningsOf(table, level, r, v);
    OutcomeStatus(table[v], r);
  }

  lemma NextCallsLogged(table: StepTable, levels: seq<seq<Id>>, input: Json, r: Run, states: seq<State>)
    requires Known(table, levels) && FitsUpto(table, levels) && Traced(table, levels, input, r, states) && |states| <= |levels| && CallsLogged(table, r)
    requires Traced(table, levels, input, RunLevel(table, levels[|states| - 1], r), states + [RunLevel(table, levels[|states| - 1], r).state])
    ensures CallsLogged(table, RunLevel(table, levels[|states| - 1], r))
  {
    var n := |states| - 1;
    var level := levels[n];
    FitsAt(table, levels, n);
    OutputsReached(table, levels, input, r, states, n);
    forall v | v in table
      ensures var q := RunLevel(table, level, r); Began(v) in q.log <==> q.executions[v].status == Completed || q.executions[v].status == Failed
    {
      if v in level {
        UptoMember(levels, n, v);
        LevelOutcome(table, level, r, v);
      } else {
        LevelLeaves(table, level, r, v);
      }
      CallsLoggedFurther(table, level, r, RunLevel(table, level, r), v);
    }
  }

  /** A run in progress: its trace, and what the saga keeps. */
  ghost predicate Going(table: StepTable, levels: seq<seq<Id>>, active: nat -> bool, input: Json, r: Run, states: seq<State>) {
    && Traced(table, levels, input, r, states) && Orderly(table, r, Upto(levels, |states| - 1)) && CallsLogged(table, r)
    && forall k :: 0 <= k < |states| - 1 ==> active(k)
  }

  lemma GoesFurther(table: StepTable, levels: seq<seq<Id>>, active: nat -> bool, input: Json, r: Run, states: seq<State>)
    requires Known(table, levels) && FitsUpto(table, levels) && Going(table, levels, active, input, r, states)
    requires r.failure.None? && |states| <= |levels| && active(|states| - 1) && !Misconfigured(table, levels[|states| - 1], r)
    ensures var q := RunLevel(table, levels[|states| - 1], r); Going(table, levels, active, input, q, states + [q.state])
  {
    FitsAt(table, levels, |states| - 1);
    LevelKeepsOrderly(table, levels[|states| - 1], r, Upto(levels, |states| - 1));
    TraceExtends(table, levels, input, r, states);
    NextCallsLogged(table, levels, input, r, states);
  }

  /** Every run that does not throw has a trace, to the last level unless something failed. */
  lemma {:induction false} RunTraced(table: StepTable, levels: seq<seq<Id>>, active: nat -> bool, start: Run, m: nat) returns (states: seq<State>)
    requires Known(table, levels) && FitsUpto(table, levels) && m <= |levels| && Going(table, levels, active, start.state.input, start, [start.state])
    requires RunLevels(table, levels[..m], active, start).Ok?
    ensures var r := RunLevels(table, levels[..m], active, start).value;
      Going(table, levels, active, start.state.input, r, states) && |states| <= m + 1 && (r.failure.None? ==> |states| == m + 1)
  {
    if m == 0 {
      states := [start.state];
    } else {
      assert levels[..m][..m - 1] == levels[..m - 1];
      states := RunTraced(table, levels, active, start, m - 1);
      var before := RunLevels(table, levels[..m - 1], active, start).value;
      if before.failure.None? {
        GoesFurther(table, levels, active, start.state.input, before, states);
        states := states + [RunLevel(table, levels[m - 1], before).state];
      }
    }
  }

  /** Where a run throws: an inactive context, or a step that would run with an attempt limit below one. */
  ghost predicate ThrowsAt(table: StepTable, level: seq<Id>, active: bool, s: State, error: Error) {
    if !active then error == TimedOut
    else error == InvalidArgument && exists v :: v in level && v in table && Wanted(table[v], s) && table[v].maxAttempts < 1
  }

  /** A run that throws had a trace of all levels before the one it throws at, and no failure in them. */
  lemma {:induction false} ThrowTraced(table: StepTable, levels: seq<seq<Id>>, active: nat -> bool, start: Run, m: nat) returns (states: seq<State>, before: Run)
    requires Known(table, levels) && FitsUpto(table, levels) && m <= |levels| && Going(table, levels, active, start.state.input, start, [start.state])
    requires RunLevels(table, levels[..m], active, start).Err?
    ensures Going(table, levels, active, start.state.input, before, states) && before.failure.None? && |states| <= m
    ensures ThrowsAt(table, levels[|states| - 1], active(|states| - 1), before.state, RunLevels(table, levels[..m], active, start).error)
  {
    assert m > 0 ==> levels[..m][..m - 1] == levels[..m - 1];
    if RunLevels(table, levels[..m - 1], active, start).Err? {
      states, before := ThrowTraced(table, levels, active, start, m - 1);
    } else {
      states := RunTraced(table, levels, active, start, m - 1);
      before := RunLevels(table, levels[..m - 1], active, start).value;
      if active(m - 1) { MisconfiguredThrows(table, levels[m - 1], before); }
    }
  }

  lemma MisconfiguredThrows(table: StepTable, level: seq<Id>, r: Run)
    requires (forall v :: v in level ==> v in table) && Misconfigured(table, level, r)
    ensures ThrowsAt(table, level, true, r.state, InvalidArgument)
  {
    var v :| v in level && Runs(table[v], r) && table[v].maxAttempts < 1;
    assert Wanted(table[v], r.state);
  }

  lemma StartGoing(definition: Definition, levels: seq<seq<Id>>, active: nat -> bool, input: Json)
    requires Registrable(definition)
    ensures var start := Initial(definition.steps, input); Going(TableOf(definition.steps), levels, active, input, start, [start.state])
  {
    InitialOrderly(definition, input);
    assert Upto(levels, 0) == {};
  }

  /** What compensation leaves of the run before it. */
  ghost predicate Closes(definition: Definition, before: Run, record: RunRecord) {
    && record.state == before.state && record.error == before.failure && record.executions.Keys == before.executions.Keys
    && (if before.failure.None? then record.status == RunCompleted && record.executions == before.executions
        else if definition.compensateOnFailure then record.status == RunCompensated
        else record.status == RunFailed && record.executions == before.executions)
    && (record.status == RunCompensated ==>
         forall i :: 0 <= i < |definition.steps| && definition.steps[i].id in before.executions ==>
           record.executions[definition.steps[i].id] == Compensated(definition.steps[i], before.state, before.executions[definition.steps[i].id]))
  }

  function Compensated(step: Step, s: State, e: Execution): Execution {
    if e.status == Completed && step.compensate.Some? && step.compensate.value(s) then e.(status := Undone) else e
  }

  /**
   What `execute` returns: there are states, the first with the input and no outputs, such that each step of an executed
   level is recorded as its handler makes of the state before its level, each level adds its outputs, and compensation
   undoes completed steps in the last state.
   */
  lemma {:induction false} RecordExplained(workflowId: Id, definition: Definition, levels: seq<seq<Id>>, active: nat -> bool, input: Json)
    returns (states: seq<State>, before: Run)
    requires Registrable(definition) && IsPlanFor(definition, levels)
    requires ResultOf(workflowId, definition, levels, active, input).Ok?
    ensures Traced(TableOf(definition.steps), levels, input, before, states)
    ensures (before.failure.None? ==> |states| == |levels| + 1) && forall k :: 0 <= k < |states| - 1 ==> active(k)
    ensures Closes(definition, before, ResultOf(workflowId, definition, levels, active, input).value)
    ensures ResultOf(workflowId, definition, levels, active, input).value.workflowId == workflowId
  {
    var table, start := TableOf(definition.steps), Initial(definition.steps, input);
    LevelsAreSchedule(definition, levels);
    StartGoing(definition, levels, active, input);
    assert levels[..|levels|] == levels;
    states := RunTraced(table, levels, active, start, |levels|);
    before := RunLevels(table, levels, active, start).value;
    forall v | v in table
      ensures v in before.completedOrder <==> before.executions[v].status == Completed
    {
      CompletedListed(table, levels, input, before, states, v);
    }
    RecordCloses(workflowId, definition, before);
  }

  /** The steps listed as completed are those recorded so. */
  lemma CompletedListed(table: StepTable, levels: seq<seq<Id>>, input: Json, r: Run, states: seq<State>, v: Id)
    requires Traced(table, levels, input, r, states) && Orderly(table, r, Upto(levels, |states| - 1)) && v in table
    ensures v in r.completedOrder <==> r.executions[v].status == Completed
  {
    UptoMember(levels, |states| - 1, v);
  }

  lemma Compensates(table: StepTable, r: Run, v: Id)
    requires Distinct(r.completedOrder) && v in table && v in r.executions
    requires v in r.completedOrder <==> r.executions[v].status == Completed
    ensures var q := Undo(table, r.completedOrder, r);
      && q.state == r.state && q.failure == r.failure && q.executions.Keys == r.executions.Keys
      && q.executions[v] == Compensated(table[v], r.state, r.executions[v])
  {
    UndoEffect(table, r.completedOrder, r, v);
  }

  lemma RecordCloses(workflowId: Id, definition: Definition, before: Run)
    requires Registrable(definition) && Distinct(before.completedOrder)
    requires var table := TableOf(definition.steps);
      table.Keys == before.executions.Keys && forall v :: v in table ==> (v in before.completedOrder <==> before.executions[v].status == Completed)
    ensures Closes(definition, before, RecordOf(workflowId, definition, Finish(definition, TableOf(definition.steps), before)))
  {
    var table := TableOf(definition.steps);
    TableKeys(definition.steps);
    forall v | v in table
      ensures var q := Undo(table, before.completedOrder, before);
        q.state == before.state && q.failure == before.failure && q.executions.Keys == before.executions.Keys
        && q.executions[v] == Compensated(table[v], before.state, before.executions[v])
    {
      Compensates(table, before, v);
    }
    assert definition.steps[0].id in table;
  }

  /** In every run that `execute` returns, the handlers called are those of the steps recorded as completed, undone or failed. */
  lemma {:induction false} CalledIff(definition: Definition, levels: seq<seq<Id>>, active: nat -> bool, input: Json, v: Id)
    requires Registrable(definition) && IsPlanFor(definition, levels) && v in TableOf(definition.steps)
    requires Outcome(definition, levels, active, input).Ok?
    ensures var final := Outcome(definition, levels, active, input).value;
      v in final.executions && (Began(v) in final.log <==> final.executions[v].status in {Completed, Undone, Failed})
  {
    var table, start := TableOf(definition.steps), Initial(definition.steps, input);
    LevelsAreSchedule(definition, levels);
    StartGoing(definition, levels, active, input);
    assert levels[..|levels|] == levels;
    var states := RunTraced(table, levels, active, start, |levels|);
    var before := RunLevels(table, levels, active, start).value;
    CompletedListed(table, levels, input, before, states, v);
    StatusKnown(table, levels, input, before, states, v);
    UndoCallsNothing(table, before, v);
  }

  lemma UndoCallsNothing(table: StepTable, r: Run, v: Id)
    requires CallsLogged(table, r) && Distinct(r.completedOrder) && v in table && v in r.executions && r.executions[v].status != Undone
    requires v in r.completedOrder <==> r.executions[v].status == Completed
    ensures var q := Undo(table, r.completedOrder, r);
      v in q.executions && (Began(v) in q.log <==> q.executions[v].status in {Completed, Undone, Failed})
    ensures Began(v) in r.log <==> r.executions[v].status in {Completed, Undone, Failed}
  {
    Compensates(table, r, v);
    UndoVisitsInReverse(table, r.completedOrder, r);
    assert Began(v) !in UndoCalls(Reversed(Compensable(table, r.completedOrder)));
  }

  lemma StatusKnown(table: StepTable, levels: seq<seq<Id>>, input: Json, r: Run, states: seq<State>, v: Id)
    requires Traced(table, levels, input, r, states) && v in table
    ensures r.executions[v].status != Undone
  {
    if r.executions[v].status != Pending {
      var k :| 0 <= k < |states| - 1 && v in levels[k];
      assert LevelExplained(table, levels[k], r.executions, states[k], states[k + 1]);
    }
  }

  /** When `execute` throws on a registered workflow: all levels before ran without a failure, and the next one cannot. */
  lemma {:induction false} ThrowExplained(workflowId: Id, definition: Definition, levels: seq<seq<Id>>, active: nat -> bool, input: Json)
    returns (states: seq<State>, before: Run)
    requires Registrable(definition) && IsPlanFor(definition, levels)
    requires ResultOf(workflowId, definition, levels, active, input).Err?
    ensures Traced(TableOf(definition.steps), levels, input, before, states) && before.failure.None? && |states| <= |levels|
    ensures forall k :: 0 <= k < |states| - 1 ==> active(k)
    ensures ThrowsAt(TableOf(definition.steps), levels[|states| - 1], active(|states| - 1), before.state,
                     ResultOf(workflowId, definition, levels, active, input).error)
  {
    LevelsAreSchedule(definition, levels);
    StartGoing(definition, levels, active, input);
    assert levels[..|levels|] == levels;
    states, before := ThrowTraced(TableOf(definition.steps), levels, active, Initial(definition.steps, input), |levels|);
  }

  /** The record that `execute` leaves behind when it throws. */
  lemma {:induction false} UnfinishedPending(workflowId: Id, definition: Definition, input: Json)
    requires Registrable(definition)
    ensures var record := Unfinished(workflowId, definition, input);
      && record.workflowId == workflowId && record.status == RunRunning && record.error.None? && record.state == State(input, map[])
      && record.executions.Keys == Elements(Ids(definition.steps))
      && forall v :: v in record.executions ==> record.executions[v] == Execution(Pending, 0, None, None)
  {
    TableKeys(definition.steps);
  }
}
