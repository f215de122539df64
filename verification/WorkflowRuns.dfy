/**
 What every workflow run keeps, and why running level by level gives the result
 of running the steps one at a time in any order that respects dependencies.
 */
module WorkflowRuns {
  import opened Prelude
  import opened Dag
  import opened Workflow
  import Levels

  ghost predicate AgreeOn(ids: seq<Id>, s: State, t: State) {
    s.input == t.input && forall d :: d in ids ==> (d in s.outputs <==> d in t.outputs) && (d in s.outputs ==> s.outputs[d] == t.outputs[d])
  }

  /** The step looks at nothing but the input and the outputs of its declared dependencies. */
  ghost predicate Local(step: Step) {
    forall s, t :: AgreeOn(step.dependsOn, s, t) ==> SameBehaviour(step, s, t)
  }

  ghost predicate SameBehaviour(step: Step, s: State, t: State) {
    WantsToRun(step, s) == WantsToRun(step, t) && forall a :: step.run(s, a) == step.run(t, a)
  }

  ghost predicate AllLocal(table: StepTable) {
    forall v :: v in table ==> Local(table[v])
  }

  lemma SameAttempts(step: Step, s: State, t: State, attempt: nat, lastError: string)
    requires SameBehaviour(step, s, t)
    ensures Attempt(step, s, attempt, lastError) == Attempt(step, t, attempt, lastError)
    decreases step.maxAttempts - attempt
  {
    if attempt > step.maxAttempts {
    } else {
      var outcome := step.run(s, attempt);
      assert outcome == step.run(t, attempt);
      if outcome.Threw? {
        SameAttempts(step, s, t, attempt + 1, outcome.message);
      }
    }
  }

  /** The retry loop settles on the least attempt that returns, and fails only when all of them threw. */
  lemma {:induction false} AttemptsAreLeast(step: Step, s: State, attempt: nat, lastError: string)
    ensures var e := Attempt(step, s, attempt, lastError);
      && (e.status == Completed <==> exists a :: attempt <= a <= step.maxAttempts && step.run(s, a).Returned?)
      && (e.status == Completed ==>
            && attempt <= e.attempts <= step.maxAttempts
            && e.output.Some? && step.run(s, e.attempts) == Returned(e.output.value)
            && forall a :: attempt <= a < e.attempts ==> step.run(s, a).Threw?)
      && (e.status != Completed ==> e.status == Failed && e.attempts == step.maxAttempts)
    decreases step.maxAttempts - attempt
  {
    if attempt <= step.maxAttempts && step.run(s, attempt).Threw? {
      AttemptsAreLeast(step, s, attempt + 1, step.run(s, attempt).message);
    }
  }

  lemma OutcomeStable(step: Step, r: Run, q: Run)
    requires Local(step) && AgreeOn(step.dependsOn, r.state, q.state)
    requires Satisfied(r.executions, step) == Satisfied(q.executions, step)
    ensures OutcomeOf(step, r) == OutcomeOf(step, q) && Runs(step, r) == Runs(step, q)
  {
    assert SameBehaviour(step, r.state, q.state);
    SameAttempts(step, r.state, q.state, 1, "Step failed");
  }

  /**
   The settled steps `done` are closed under dependencies, none was held back by the dependency guard,
   and each one's execution is what the step comes to in the state of the run.
   */
  ghost predicate Consistent(table: StepTable, input: Json, r: Run, done: set<Id>) {
    && done <= table.Keys == r.executions.Keys
    && r.state.input == input
    && OutputsMatch(r, done)
    && (forall v :: v in done ==> StepConsistent(table, r, done, v))
    && (r.failure.None? <==> forall v :: v in done ==> r.executions[v].status != Failed)
  }

  ghost predicate OutputsMatch(r: Run, done: set<Id>)
    requires done <= r.executions.Keys
  {
    && (forall v :: v in r.state.outputs <==> v in done && r.executions[v].status == Completed)
    && (forall v :: v in r.state.outputs ==> r.state.outputs[v] == r.executions[v].output.GetOr("null"))
  }

  ghost predicate StepConsistent(table: StepTable, r: Run, done: set<Id>, v: Id)
    requires v in table && v in r.executions
  {
    && (forall d :: d in table[v].dependsOn ==> d in done)
    && Satisfied(r.executions, table[v])
    && r.executions[v] == OutcomeOf(table[v], r)
  }

  ghost predicate Recorded(q: Run, v: Id, e: Execution) {
    && v in q.executions && q.executions[v] == e
    && (v in q.state.outputs <==> e.status == Completed)
    && (v in q.state.outputs ==> q.state.outputs[v] == e.output.GetOr("null"))
  }

  ghost predicate Untouched(r: Run, q: Run, v: Id) {
    && (v in q.executions <==> v in r.executions)
    && (v in r.executions ==> q.executions[v] == r.executions[v])
    && (v in q.state.outputs <==> v in r.state.outputs)
    && (v in r.state.outputs ==> q.state.outputs[v] == r.state.outputs[v])
  }

  lemma SettleOneEffect(v: Id, e: Execution, r: Run, w: Id)
    requires v !in r.state.outputs
    ensures Recorded(SettleOne(v, e, r), v, e)
    ensures w != v ==> Untouched(r, SettleOne(v, e, r), w)
    ensures SettleOne(v, e, r).state.input == r.state.input
    ensures SettleOne(v, e, r).failure.None? <==> r.failure.None? && e.status != Failed
  {
  }

  /** What recording a level's outcomes changes, step by step. */
  lemma {:induction false} SettleEffect(level: seq<Id>, outcomes: seq<Execution>, r: Run)
    requires |level| == |outcomes| && Distinct(level)
    requires forall v :: v in level ==> v !in r.state.outputs
    ensures forall i :: 0 <= i < |level| ==> Recorded(Settle(level, outcomes, r), level[i], outcomes[i])
    ensures forall v :: v !in level ==> Untouched(r, Settle(level, outcomes, r), v)
    ensures Settle(level, outcomes, r).state.input == r.state.input
    ensures Settle(level, outcomes, r).failure.None? <==> r.failure.None? && forall i :: 0 <= i < |level| ==> outcomes[i].status != Failed
  {
    if level == [] {
    } else {
      var last := |level| - 1;
      SettleEffect(level[..last], outcomes[..last], r);
      var before := Settle(level[..last], outcomes[..last], r);
      var q := Settle(level, outcomes, r);
      assert level[last] !in level[..last];
      assert Untouched(r, before, level[last]);
      forall v
        ensures v !in level ==> Untouched(r, q, v)
      {
        assert v !in level ==> v !in level[..last];
        SettleOneEffect(level[last], outcomes[last], before, v);
      }
      forall i | 0 <= i < |level|
        ensures Recorded(q, level[i], outcomes[i])
      {
        SettleOneEffect(level[last], outcomes[last], before, level[i]);
        if i < last {
          assert Recorded(before, level[..last][i], outcomes[..last][i]);
        }
      }
      assert forall i :: 0 <= i < last ==> outcomes[..last][i] == outcomes[i];
    }
  }

  lemma OutcomeStatus(step: Step, r: Run)
    ensures OutcomeOf(step, r).status in {Completed, Failed, Skipped}
    ensures OutcomeOf(step, r).status == Skipped <==> !Runs(step, r)
  {
    AttemptsAreLeast(step, r.state, 1, "Step failed");
  }

  /** A level of new steps whose dependencies are all settled. */
  ghost predicate Fits(table: StepTable, level: seq<Id>, done: set<Id>) {
    && Distinct(level)
    && forall v :: v in level ==> v in table && v !in done && forall d :: d in table[v].dependsOn ==> d in done
  }

  lemma LevelOutputsMatch(table: StepTable, level: seq<Id>, r: Run, done: set<Id>)
    requires Fits(table, level, done) && done <= table.Keys == r.executions.Keys && OutputsMatch(r, done)
    ensures RunLevel(table, level, r).executions.Keys == table.Keys
    ensures OutputsMatch(RunLevel(table, level, r), done + Elements(level))
  {
    var outcomes := Outcomes(table, level, r);
    var q := RunLevel(table, level, r);
    SettleEffect(level, outcomes, r.(log := r.log + Beginnings(table, level, r)));
    forall v
      ensures v in q.state.outputs <==> v in done + Elements(level) && q.executions[v].status == Completed
      ensures v in q.state.outputs ==> q.state.outputs[v] == q.executions[v].output.GetOr("null")
    {
      if v in level {
        var i :| 0 <= i < |level| && level[i] == v;
      }
    }
  }

  /** Running a level whose dependencies are all settled, with no failure so far, keeps the run consistent. */
  lemma {:induction false} LevelKeepsConsistent(table: StepTable, input: Json, level: seq<Id>, r: Run, done: set<Id>)
    requires AllLocal(table) && Consistent(table, input, r, done) && r.failure.None?
    requires Fits(table, level, done)
    ensures Consistent(table, input, RunLevel(table, level, r), done + Elements(level))
  {
    var outcomes := Outcomes(table, level, r);
    var logged := r.(log := r.log + Beginnings(table, level, r));
    var q := RunLevel(table, level, r);
    var all := done + Elements(level);
    SettleEffect(level, outcomes, logged);
    forall v | v in all
      ensures StepConsistent(table, q, all, v)
    {
      assert AgreeOn(table[v].dependsOn, r.state, q.state);
      assert Satisfied(r.executions, table[v]) by { DependenciesSatisfied(table, input, r, done, v); }
      assert Satisfied(q.executions, table[v]);
      OutcomeStable(table[v], r, q);
      if v in level {
        var i :| 0 <= i < |level| && level[i] == v;
        assert outcomes[i] == OutcomeOf(table[v], r);
      }
    }
    LevelOutputsMatch(table, level, r, done);
    forall v | v in level
      ensures exists i :: 0 <= i < |level| && level[i] == v && q.executions[v] == outcomes[i]
    {
      var i :| 0 <= i < |level| && level[i] == v;
    }
  }

  /** While nothing has failed, settled dependencies are completed or skipped: the dependency guard cannot fire. */
  lemma {:induction false} DependenciesSatisfied(table: StepTable, input: Json, r: Run, done: set<Id>, v: Id)
    requires Consistent(table, input, r, done) && r.failure.None?
    requires v in table && forall d :: d in table[v].dependsOn ==> d in done
    ensures Satisfied(r.executions, table[v])
  {
    forall d | d in table[v].dependsOn
      ensures r.executions[d].status in {Completed, Skipped}
    {
      assert StepConsistent(table, r, done, d);
      OutcomeStatus(table[d], r);
    }
  }

  /** The ids of the first `k` levels. */
  ghost function Upto(levels: seq<seq<Id>>, k: nat): set<Id>
    requires k <= |levels|
  {
    if k == 0 then {} else Upto(levels, k - 1) + Elements(levels[k - 1])
  }

  ghost predicate LevelFits(table: StepTable, levels: seq<seq<Id>>, k: nat)
    requires k < |levels|
  {
    Fits(table, levels[k], Upto(levels, k))
  }

  /** Every step is in exactly one level, and its dependencies are in earlier ones. */
  ghost predicate IsSchedule(table: StepTable, levels: seq<seq<Id>>) {
    && (forall k :: 0 <= k < |levels| ==> LevelFits(table, levels, k))
    && Upto(levels, |levels|) == table.Keys
  }

  lemma UptoPrefix(levels: seq<seq<Id>>, j: nat, k: nat)
    requires k <= j <= |levels|
    ensures Upto(levels[..j], k) == Upto(levels, k)
  {
    if k == 0 {
    } else {
      UptoPrefix(levels, j, k - 1);
    }
  }

  ghost predicate FitsUpto(table: StepTable, levels: seq<seq<Id>>) {
    forall k :: 0 <= k < |levels| ==> LevelFits(table, levels, k)
  }

  lemma FitsPrefix(table: StepTable, levels: seq<seq<Id>>, j: nat)
    requires FitsUpto(table, levels) && j <= |levels|
    ensures FitsUpto(table, levels[..j])
  {
    forall k | 0 <= k < j
      ensures LevelFits(table, levels[..j], k)
    {
      assert LevelFits(table, levels, k);
      UptoPrefix(levels, j, k);
    }
  }

  lemma InitialConsistent(table: StepTable, input: Json, r: Run)
    requires r.executions.Keys == table.Keys && r.state == State(input, map[]) && r.failure.None?
    ensures Consistent(table, input, r, {})
  {
  }

  /** Every run that does not throw is consistent on the levels it executed: all of them unless something failed. */
  lemma {:induction false} RunsConsistent(table: StepTable, levels: seq<seq<Id>>, active: nat -> bool, start: Run) returns (n: nat)
    requires AllLocal(table) && Known(table, levels) && FitsUpto(table, levels)
    requires Consistent(table, start.state.input, start, {})
    requires RunLevels(table, levels, active, start).Ok?
    ensures var r := RunLevels(table, levels, active, start).value;
      n <= |levels| && Consistent(table, start.state.input, r, Upto(levels, n)) && (r.failure.None? ==> n == |levels|)
    decreases |levels|
  {
    if levels == [] {
      n := 0;
    } else {
      var last := |levels| - 1;
      FitsPrefix(table, levels, last);
      n := RunsConsistent(table, levels[..last], active, start);
      UptoPrefix(levels, last, n);
      var before := RunLevels(table, levels[..last], active, start).value;
      if before.failure.None? {
        assert LevelFits(table, levels, last);
        LevelKeepsConsistent(table, start.state.input, levels[last], before, Upto(levels, last));
        n := |levels|;
      }
    }
  }

  /** Two consistent runs on the same input agree on every step both have settled. */
  lemma {:induction false} ConsistentRunsAgree(table: StepTable, input: Json, order: seq<Id>, r: Run, done: set<Id>, q: Run, done': set<Id>, v: Id)
    requires AllLocal(table) && Consistent(table, input, r, done) && Consistent(table, input, q, done')
    requires IsTopological(GraphOf(table), order) && table.Keys <= Elements(order)
    requires v in done && v in done'
    ensures r.executions[v] == q.executions[v]
    ensures Runs(table[v], r) == Runs(table[v], q)
    decreases IndexOf(order, v)
  {
    assert StepConsistent(table, r, done, v) && StepConsistent(table, q, done', v);
    forall d | d in table[v].dependsOn
      ensures r.executions[d] == q.executions[d]
    {
      assert DependsOn(GraphOf(table), v, d);
      TrailDescends(GraphOf(table), order, [v, d]);
      ConsistentRunsAgree(table, input, order, r, done, q, done', d);
    }
    OutcomeStable(table[v], r, q);
  }

  lemma LevelsAreSchedule(definition: Definition, levels: seq<seq<Id>>)
    requires Registrable(definition) && IsPlanFor(definition, levels)
    ensures IsSchedule(TableOf(definition.steps), levels)
  {
    var ids, table := Ids(definition.steps), TableOf(definition.steps);
    var g := GraphOf(table);
    DefinitionClosed(definition);
    forall k | 0 <= k < |levels|
      ensures LevelFits(table, levels, k)
    {
      FilterDistinct(ids, v => AtDepth(g, v, k));
      forall v | v in levels[k]
        ensures v !in Upto(levels, k) && forall d :: d in table[v].dependsOn ==> d in Upto(levels, k)
      {
        Levels.LevelsPartition(g, ids, levels, v);
        UptoMember(levels, k, v);
        forall d | d in table[v].dependsOn
          ensures d in Upto(levels, k)
        {
          Levels.DependenciesEarlier(g, ids, levels, k, v, d);
          UptoMember(levels, k, d);
        }
      }
    }
    forall v
      ensures v in Upto(levels, |levels|) <==> v in table
    {
      UptoMember(levels, |levels|, v);
      if v in table {
        Levels.LevelsPartition(g, ids, levels, v);
      }
    }
  }

  lemma {:induction false} UptoMember(levels: seq<seq<Id>>, k: nat, v: Id)
    requires k <= |levels|
    ensures v in Upto(levels, k) <==> exists j :: 0 <= j < k && v in levels[j]
  {
    if k == 0 {
    } else {
      UptoMember(levels, k - 1, v);
    }
  }

  /** One step at a time. */
  function Singly(order: seq<Id>): seq<seq<Id>> {
    seq(|order|, i requires 0 <= i < |order| => [order[i]])
  }

  lemma SinglyIsSchedule(table: StepTable, order: seq<Id>)
    requires Distinct(order) && Elements(order) == table.Keys && IsTopological(GraphOf(table), order)
    ensures IsSchedule(table, Singly(order))
  {
    var levels := Singly(order);
    forall k | 0 <= k <= |order|
      ensures Upto(levels, k) == Elements(order[..k])
    {
      SinglyUpto(order, k);
    }
    assert order[..|order|] == order;
    forall k | 0 <= k < |order|
      ensures LevelFits(table, levels, k)
    {
      forall d | d in table[order[k]].dependsOn
        ensures d in order[..k]
      {
        assert DependsOn(GraphOf(table), order[k], d);
      }
    }
  }

  lemma SinglyUpto(order: seq<Id>, k: nat)
    requires k <= |order|
    ensures Upto(Singly(order), k) == Elements(order[..k])
  {
    if k == 0 {
    } else {
      SinglyUpto(order, k - 1);
      assert order[..k] == order[..k - 1] + [order[k - 1]];
    }
  }

  /** A level that another, failure-free run has already been through does not fail here either. */
  lemma NextLevelSucceeds(table: StepTable, order: seq<Id>, input: Json, r: Run, before: Run, done: set<Id>, level: seq<Id>)
    requires AllLocal(table) && IsTopological(GraphOf(table), order) && table.Keys <= Elements(order)
    requires Consistent(table, input, r, table.Keys) && r.failure.None?
    requires Consistent(table, input, before, done) && before.failure.None? && Fits(table, level, done)
    ensures Consistent(table, input, RunLevel(table, level, before), done + Elements(level))
    ensures RunLevel(table, level, before).failure.None?
    ensures !Misconfigured(table, level, before)
  {
    LevelKeepsConsistent(table, input, level, before, done);
    var after := RunLevel(table, level, before);
    forall v | v in done + Elements(level)
      ensures after.executions[v] == r.executions[v]
    {
      ConsistentRunsAgree(table, input, order, after, done + Elements(level), r, table.Keys, v);
    }
    NoFailureIn(table, input, after, done + Elements(level), r);
    LevelConfigured(table, level, before);
  }

  lemma NoFailureIn(table: StepTable, input: Json, after: Run, done: set<Id>, r: Run)
    requires Consistent(table, input, r, table.Keys) && r.failure.None? && Consistent(table, input, after, done)
    requires forall v :: v in done ==> after.executions[v] == r.executions[v]
    ensures after.failure.None? && forall v :: v in done ==> after.executions[v].status != Failed
  {
  }

  /** A step with an attempt limit below one would have been recorded as failed. */
  lemma LevelConfigured(table: StepTable, level: seq<Id>, before: Run)
    requires Distinct(level) && forall w :: w in level ==> w in table && w !in before.state.outputs
    requires var after := RunLevel(table, level, before);
      forall w :: w in level && w in after.executions ==> after.executions[w].status != Failed
    ensures !Misconfigured(table, level, before)
  {
    forall v | v in level && Runs(table[v], before)
      ensures table[v].maxAttempts >= 1
    {
      LevelOutcome(table, level, before, v);
    }
  }

  /** If one schedule runs all steps without a failure, so does every part of any other schedule. */
  lemma PrefixSucceeds(table: StepTable, order: seq<Id>, start: Run, r: Run, levels: seq<seq<Id>>, active: nat -> bool)
    requires AllLocal(table) && IsTopological(GraphOf(table), order) && table.Keys <= Elements(order)
    requires Consistent(table, start.state.input, start, {})
    requires Consistent(table, start.state.input, r, table.Keys) && r.failure.None?
    requires Known(table, levels) && FitsUpto(table, levels) && forall k :: 0 <= k < |levels| ==> active(k)
    ensures Succeeds(RunLevels(table, levels, active, start))
    ensures Consistent(table, start.state.input, RunLevels(table, levels, active, start).value, Upto(levels, |levels|))
    decreases |levels|
  {
    if levels != [] {
      var last := |levels| - 1;
      FitsPrefix(table, levels, last);
      PrefixSucceeds(table, order, start, r, levels[..last], active);
      UptoPrefix(levels, last, last);
      var before := RunLevels(table, levels[..last], active, start).value;
      FitsAt(table, levels, last);
      NextLevelSucceeds(table, order, start.state.input, r, before, Upto(levels, last), levels[last]);
      RunLevelsStep(table, levels, active, start);
    } else {
      assert Upto(levels, 0) == {};
    }
  }

  lemma FitsAt(table: StepTable, levels: seq<seq<Id>>, k: nat)
    requires FitsUpto(table, levels) && k < |levels|
    ensures Fits(table, levels[k], Upto(levels, k))
  {
    assert LevelFits(table, levels, k);
  }

  lemma RunLevelsStep(table: StepTable, levels: seq<seq<Id>>, active: nat -> bool, start: Run)
    requires Known(table, levels) && levels != [] && active(|levels| - 1)
    requires Succeeds(RunLevels(table, levels[..|levels| - 1], active, start))
    requires !Misconfigured(table, levels[|levels| - 1], RunLevels(table, levels[..|levels| - 1], active, start).value)
    ensures RunLevels(table, levels, active, start)
         == Ok(RunLevel(table, levels[|levels| - 1], RunLevels(table, levels[..|levels| - 1], active, start).value))
  {
  }

  /** Nothing has failed, so the run goes on. */
  ghost predicate Succeeds(o: Result<Run>) {
    o.Ok? && o.value.failure.None?
  }

  lemma LevelOutcome(table: StepTable, level: seq<Id>, r: Run, v: Id)
    requires Distinct(level) && v in level
    requires forall w :: w in level ==> w in table && w !in r.state.outputs
    ensures var q := RunLevel(table, level, r); v in q.executions && q.executions[v] == OutcomeOf(table[v], r)
  {
    var outcomes := Outcomes(table, level, r);
    SettleEffect(level, outcomes, r.(log := r.log + Beginnings(table, level, r)));
    var i :| 0 <= i < |level| && level[i] == v;
    assert Recorded(RunLevel(table, level, r), level[i], outcomes[i]);
  }

  lemma ConsistentExecutionsEqual(table: StepTable, input: Json, order: seq<Id>, r: Run, q: Run)
    requires AllLocal(table) && IsTopological(GraphOf(table), order) && table.Keys <= Elements(order)
    requires Consistent(table, input, r, table.Keys) && Consistent(table, input, q, table.Keys)
    ensures r.executions == q.executions
  {
    forall v | v in table
      ensures r.executions[v] == q.executions[v]
    {
      ConsistentRunsAgree(table, input, order, r, table.Keys, q, table.Keys, v);
    }
  }

  lemma ConsistentRunsEqual(table: StepTable, input: Json, order: seq<Id>, r: Run, q: Run)
    requires AllLocal(table) && IsTopological(GraphOf(table), order) && table.Keys <= Elements(order)
    requires Consistent(table, input, r, table.Keys) && Consistent(table, input, q, table.Keys)
    ensures r.executions == q.executions && r.state == q.state
  {
    ConsistentExecutionsEqual(table, input, order, r, q);
    OutputsDetermined(r, q, table.Keys);
  }

  lemma OutputsDetermined(r: Run, q: Run, done: set<Id>)
    requires r.executions == q.executions && done <= r.executions.Keys
    requires OutputsMatch(r, done) && OutputsMatch(q, done)
    ensures r.state.outputs == q.state.outputs
  {
    assert r.state.outputs.Keys == q.state.outputs.Keys;
  }

  /** Any two schedules of the same steps give the same outputs and executions, if one of them runs without failure. */
  lemma {:induction false} SchedulesAgree(table: StepTable, start: Run, order: seq<Id>, a: seq<seq<Id>>, b: seq<seq<Id>>, active: nat -> bool)
    requires AllLocal(table) && IsTopological(GraphOf(table), order) && table.Keys <= Elements(order)
    requires start.executions.Keys == table.Keys && start.state.outputs == map[] && start.failure.None?
    requires IsSchedule(table, a) && IsSchedule(table, b) && Known(table, a) && Known(table, b)
    requires forall k :: active(k)
    requires Succeeds(RunLevels(table, a, active, start))
    ensures Succeeds(RunLevels(table, b, active, start))
    ensures SameResult(RunLevels(table, b, active, start).value, RunLevels(table, a, active, start).value)
  {
    var input := start.state.input;
    InitialConsistent(table, input, start);
    var n := RunsConsistent(table, a, active, start);
    var ra := RunLevels(table, a, active, start).value;
    PrefixSucceeds(table, order, start, ra, b, active);
    ConsistentRunsEqual(table, input, order, ra, RunLevels(table, b, active, start).value);
  }

  ghost predicate SameResult(r: Run, q: Run) {
    r.executions == q.executions && r.state == q.state
  }

  lemma SinglyKnown(table: StepTable, order: seq<Id>)
    requires Elements(order) <= table.Keys
    ensures Known(table, Singly(order))
  {
    assert forall k :: 0 <= k < |order| ==> Singly(order)[k] == [order[k]] && order[k] in Elements(order);
  }

  /**
   Level-parallel execution refines sequential execution: on local steps the run that goes level by level
   succeeds exactly when the run that takes the steps one at a time does, with the same outputs and executions,
   whatever dependency-respecting order the steps are taken in.
   */
  lemma {:induction false} ParallelRefinesSequential(definition: Definition, levels: seq<seq<Id>>, order: seq<Id>, active: nat -> bool, input: Json)
    requires Registrable(definition) && IsPlanFor(definition, levels)
    requires AllLocal(TableOf(definition.steps)) && forall k :: active(k)
    requires Distinct(order) && Elements(order) == TableOf(definition.steps).Keys
    requires IsTopological(GraphOf(TableOf(definition.steps)), order)
    ensures Known(TableOf(definition.steps), Singly(order))
    ensures var table, start := TableOf(definition.steps), Initial(definition.steps, input);
      var parallel := RunLevels(table, levels, active, start);
      var sequential := RunLevels(table, Singly(order), active, start);
      && (Succeeds(parallel) <==> Succeeds(sequential))
      && (Succeeds(parallel) ==> SameResult(parallel.value, sequential.value))
  {
    var table, start := TableOf(definition.steps), Initial(definition.steps, input);
    LevelsAreSchedule(definition, levels);
    SinglyIsSchedule(table, order);
    SinglyKnown(table, order);
    if Succeeds(RunLevels(table, levels, active, start)) {
      SchedulesAgree(table, start, order, levels, Singly(order), active);
    }
    if Succeeds(RunLevels(table, Singly(order), active, start)) {
      SchedulesAgree(table, start, order, Singly(order), levels, active);
    }
  }
}
