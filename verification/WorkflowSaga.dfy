/** Saga safety of every workflow run, whatever its steps do. */
module WorkflowSaga {
  import opened Prelude
  import opened Dag
  import opened Workflow
  import opened WorkflowRuns

  /** A handler is called only after each dependency has been recorded as completed or skipped. */
  ghost predicate StartsAfterDependencies(table: StepTable, log: seq<Event>) {
    forall i :: 0 <= i < |log| && log[i].Began? ==>
      log[i].id in table && forall d :: d in table[log[i].id].dependsOn ==> SettledWell(log[..i], d)
  }

  predicate SettledWell(log: seq<Event>, v: Id) {
    Settled(v, Completed) in log || Settled(v, Skipped) in log
  }

  predicate FailureRecorded(log: seq<Event>) {
    exists e :: e in log && e.Settled? && e.status == Failed
  }

  /** No handler is called once a failure has been recorded. */
  ghost predicate NoStartAfterFailure(log: seq<Event>) {
    forall i :: 0 <= i < |log| && log[i].Began? ==> !FailureRecorded(log[..i])
  }

  ghost predicate LeadsTo(table: StepTable, trail: seq<Id>, v: Id, d: Id) {
    |trail| >= 2 && IsTrail(GraphOf(table), trail) && trail[0] == v && trail[|trail| - 1] == d
  }

  /** The step depends on the other one, directly or through any further steps. */
  ghost predicate ReliesOn(table: StepTable, v: Id, d: Id) {
    exists trail :: LeadsTo(table, trail, v, d)
  }

  /** Completed steps are listed after the completed steps they rely on. */
  ghost predicate CompletedInOrder(table: StepTable, order: seq<Id>) {
    forall i, d {:trigger ReliesOn(table, order[i], d)} :: 0 <= i < |order| && d in order && ReliesOn(table, order[i], d) ==> d in order[..i]
  }

  ghost predicate Orderly(table: StepTable, r: Run, done: set<Id>) {
    && done <= table.Keys == r.executions.Keys
    && (forall v :: v in r.state.outputs ==> v in done)
    && (forall v :: v in done ==> StepOrderly(table, r, done, v))
    && (r.failure.None? <==> forall v :: v in done ==> r.executions[v].status != Failed)
    && Distinct(r.completedOrder)
    && (forall v :: v in r.completedOrder <==> v in done && r.executions[v].status == Completed)
    && CompletedInOrder(table, r.completedOrder)
    && StartsAfterDependencies(table, r.log)
    && NoStartAfterFailure(r.log)
    && (r.failure.None? ==> !FailureRecorded(r.log))
  }

  ghost predicate StepOrderly(table: StepTable, r: Run, done: set<Id>, v: Id)
    requires v in table && v in r.executions
  {
    && r.executions[v].status in {Completed, Failed, Skipped}
    && (forall d :: d in table[v].dependsOn ==> d in done)
    && Event.Settled(v, r.executions[v].status) in r.log
  }

  function Settlements(level: seq<Id>, outcomes: seq<Execution>): seq<Event>
    requires |level| == |outcomes|
  {
    seq(|level|, i requires 0 <= i < |level| => Event.Settled(level[i], outcomes[i].status))
  }

  function CompletedOf(level: seq<Id>, outcomes: seq<Execution>): seq<Id>
    requires |level| == |outcomes|
  {
    if level == [] then []
    else
      var last := |level| - 1;
      CompletedOf(level[..last], outcomes[..last]) + (if outcomes[last].status == Completed then [level[last]] else [])
  }

  lemma {:induction false} SettleLog(level: seq<Id>, outcomes: seq<Execution>, r: Run)
    requires |level| == |outcomes|
    ensures Settle(level, outcomes, r).log == r.log + Settlements(level, outcomes)
    ensures Settle(level, outcomes, r).completedOrder == r.completedOrder + CompletedOf(level, outcomes)
  {
    if level == [] {
    } else {
      var last := |level| - 1;
      SettleLog(level[..last], outcomes[..last], r);
      assert Settlements(level, outcomes)
          == Settlements(level[..last], outcomes[..last]) + [Event.Settled(level[last], outcomes[last].status)];
    }
  }

  lemma {:induction false} CompletedOfMembers(level: seq<Id>, outcomes: seq<Execution>)
    requires |level| == |outcomes| && Distinct(level)
    ensures Distinct(CompletedOf(level, outcomes))
    ensures forall v :: v in CompletedOf(level, outcomes) ==> v in level
    ensures forall i :: 0 <= i < |level| ==> (level[i] in CompletedOf(level, outcomes) <==> outcomes[i].status == Completed)
  {
    if level == [] {
    } else {
      var last := |level| - 1;
      CompletedOfMembers(level[..last], outcomes[..last]);
      assert level[last] !in level[..last];
      assert forall i :: 0 <= i < last ==> level[..last][i] == level[i] && outcomes[..last][i] == outcomes[i];
    }
  }

  lemma {:induction false} BeginningsMembers(table: StepTable, level: seq<Id>, r: Run)
    requires forall v :: v in level ==> v in table
    ensures forall e :: e in Beginnings(table, level, r) ==> e.Began? && e.id in level
  {
    if level == [] {
    } else {
      BeginningsMembers(table, level[..|level| - 1], r);
    }
  }

  /** The log grows by beginnings whose dependencies are settled, then by settlements only. */
  lemma LogGrows(table: StepTable, log: seq<Event>, begun: seq<Event>, settled: seq<Event>)
    requires StartsAfterDependencies(table, log) && NoStartAfterFailure(log) && !FailureRecorded(log)
    requires forall e :: e in begun ==>
      e.Began? && e.id in table && forall d :: d in table[e.id].dependsOn ==> SettledWell(log, d)
    requires forall e :: e in settled ==> e.Settled?
    ensures StartsAfterDependencies(table, log + begun + settled)
    ensures NoStartAfterFailure(log + begun + settled)
  {
    var all := log + begun + settled;
    forall k | |log| + |begun| <= k < |all|
      ensures all[k].Settled?
    {
      assert all[k] in settled;
    }
    forall i | 0 <= i < |all| && all[i].Began?
      ensures all[i].id in table && forall d :: d in table[all[i].id].dependsOn ==> SettledWell(all[..i], d)
      ensures !FailureRecorded(all[..i])
    {
      if i < |log| {
        assert all[..i] == log[..i];
      } else {
        var k := i - |log|;
        assert all[i] == begun[k] && begun[k] in begun;
        assert all[..i] == log + begun[..k];
      }
    }
  }

  lemma OrderlyDependencies(table: StepTable, r: Run, done: set<Id>, v: Id)
    requires Orderly(table, r, done) && r.failure.None?
    requires v in table && forall d :: d in table[v].dependsOn ==> d in done
    ensures Satisfied(r.executions, table[v])
    ensures forall d :: d in table[v].dependsOn ==> SettledWell(r.log, d)
  {
    forall d | d in table[v].dependsOn
      ensures r.executions[d].status in {Completed, Skipped} && SettledWell(r.log, d)
    {
      assert StepOrderly(table, r, done, d);
    }
  }

  /** The dependency guard never fires, so a step is skipped exactly when its own condition says so. */
  lemma {:induction false} SkippedOnlyByCondition(table: StepTable, r: Run, done: set<Id>, v: Id)
    requires Orderly(table, r, done) && r.failure.None?
    requires v in table && forall d :: d in table[v].dependsOn ==> d in done
    ensures OutcomeOf(table[v], r).status == Skipped <==> !WantsToRun(table[v], r.state)
  {
    OrderlyDependencies(table, r, done, v);
    OutcomeStatus(table[v], r);
  }

  lemma OrderGrows(table: StepTable, order: seq<Id>, more: seq<Id>, done: set<Id>)
    requires CompletedInOrder(table, order) && forall v :: v in order ==> v in done
    requires forall v :: v in more ==> v !in done
    requires forall v, d :: (v in order || v in more) && ReliesOn(table, v, d) ==> d in done
    ensures CompletedInOrder(table, order + more)
  {
    var all := order + more;
    forall i, d | 0 <= i < |all| && d in all && ReliesOn(table, all[i], d)
      ensures d in all[..i]
    {
      if i < |order| {
        assert order[i] in order && d in order;
        assert all[..i] == order[..i];
      } else {
        assert all[i] in more;
        assert all[..i] == order + more[..i - |order|];
      }
    }
  }

  lemma FailureAppears(log: seq<Event>, begun: seq<Event>, level: seq<Id>, outcomes: seq<Execution>)
    requires |level| == |outcomes| && !FailureRecorded(log)
    requires forall e :: e in begun ==> e.Began?
    requires forall i :: 0 <= i < |outcomes| ==> outcomes[i].status != Failed
    ensures !FailureRecorded(log + begun + Settlements(level, outcomes))
  {
    var all := log + begun + Settlements(level, outcomes);
    forall e | e in all
      ensures !(e.Settled? && e.status == Failed)
    {
      if e in Settlements(level, outcomes) {
        var i :| 0 <= i < |level| && Settlements(level, outcomes)[i] == e;
      }
    }
  }

  /** Running a level keeps the run orderly. */
  lemma {:induction false} LevelKeepsOrderly(table: StepTable, level: seq<Id>, r: Run, done: set<Id>)
    requires Orderly(table, r, done) && r.failure.None? && Fits(table, level, done)
    ensures Orderly(table, RunLevel(table, level, r), done + Elements(level))
  {
    var outcomes := Outcomes(table, level, r);
    var begun := Beginnings(table, level, r);
    var logged := r.(log := r.log + begun);
    var q := RunLevel(table, level, r);
    SettleEffect(level, outcomes, logged);
    SettleLog(level, outcomes, logged);
    BeginningsMembers(table, level, r);
    CompletedOfMembers(level, outcomes);
    forall e | e in begun
      ensures e.id in table && forall d :: d in table[e.id].dependsOn ==> SettledWell(r.log, d)
    {
      OrderlyDependencies(table, r, done, e.id);
    }
    LogGrows(table, r.log, begun, Settlements(level, outcomes));
    OrderlyCompleted(table, level, r, done);
    OrderlySteps(table, level, r, done);
  }

  lemma CompletedOrderAfter(table: StepTable, level: seq<Id>, r: Run)
    requires Distinct(level) && forall v :: v in level ==> v in table
    ensures RunLevel(table, level, r).completedOrder == r.completedOrder + CompletedOf(level, Outcomes(table, level, r))
  {
    SettleLog(level, Outcomes(table, level, r), r.(log := r.log + Beginnings(table, level, r)));
  }

  lemma DistinctAppended(order: seq<Id>, more: seq<Id>, done: set<Id>)
    requires Distinct(order) && Distinct(more)
    requires (forall v :: v in order ==> v in done) && forall v :: v in more ==> v !in done
    ensures Distinct(order + more)
  {
    var all := order + more;
    forall i, j | 0 <= i < j < |all|
      ensures all[i] != all[j]
    {
      if i < |order| <= j { assert order[i] in order && more[j - |order|] in more; }
    }
  }

  lemma OrderlyCompleted(table: StepTable, level: seq<Id>, r: Run, done: set<Id>)
    requires Orderly(table, r, done) && Fits(table, level, done)
    ensures var q := RunLevel(table, level, r); Distinct(q.completedOrder) && CompletedInOrder(table, q.completedOrder)
    ensures CompletedListed(RunLevel(table, level, r), done + Elements(level))
  {
    var more := CompletedOf(level, Outcomes(table, level, r));
    CompletedOfMembers(level, Outcomes(table, level, r));
    DependenciesDone(table, level, r, done, more);
    CompletedOrderAfter(table, level, r);
    DistinctAppended(r.completedOrder, more, done);
    OrderGrows(table, r.completedOrder, more, done);
    CompletedAfterLevel(table, level, r, done);
  }

  lemma TrailTail(g: Graph, trail: seq<Id>)
    requires trail != [] && IsTrail(g, trail)
    ensures IsTrail(g, trail[1..])
  {
    forall i | 0 <= i < |trail[1..]| - 1
      ensures DependsOn(g, trail[1..][i], trail[1..][i + 1])
    {
      assert DependsOn(g, trail[i + 1], trail[i + 1 + 1]);
    }
  }

  /** Whatever a settled step relies on is settled. */
  lemma {:induction false} SettledBehind(table: StepTable, r: Run, done: set<Id>, trail: seq<Id>)
    requires Orderly(table, r, done) && trail != [] && IsTrail(GraphOf(table), trail) && trail[0] in done
    ensures trail[|trail| - 1] in done
  {
    if |trail| == 1 {
    } else {
      var front := trail[..|trail| - 1];
      assert forall i :: 0 <= i < |front| - 1 ==> DependsOn(GraphOf(table), trail[i], trail[i + 1]);
      SettledBehind(table, r, done, front);
      assert StepOrderly(table, r, done, front[|front| - 1]);
      assert DependsOn(GraphOf(table), trail[|trail| - 2], trail[|trail| - 2 + 1]);
    }
  }

  lemma {:induction false} DependenciesDone(table: StepTable, level: seq<Id>, r: Run, done: set<Id>, more: seq<Id>)
    requires Orderly(table, r, done) && Fits(table, level, done) && forall v :: v in more ==> v in level
    ensures forall v, d :: (v in r.completedOrder || v in more) && ReliesOn(table, v, d) ==> d in done
  {
    forall v, d | (v in r.completedOrder || v in more) && ReliesOn(table, v, d)
      ensures d in done
    {
      var trail :| LeadsTo(table, trail, v, d);
      assert DependsOn(GraphOf(table), trail[0], trail[0 + 1]);
      if v in r.completedOrder { assert StepOrderly(table, r, done, v); }
      TrailTail(GraphOf(table), trail);
      SettledBehind(table, r, done, trail[1..]);
    }
  }

  /** The completion order lists exactly the completed steps. */
  ghost predicate CompletedListed(r: Run, done: set<Id>) {
    forall v :: v in r.completedOrder <==> v in r.executions && v in done && r.executions[v].status == Completed
  }

  lemma CompletedAfterLevel(table: StepTable, level: seq<Id>, r: Run, done: set<Id>)
    requires Orderly(table, r, done) && Fits(table, level, done)
    ensures CompletedListed(RunLevel(table, level, r), done + Elements(level))
  {
    var outcomes := Outcomes(table, level, r);
    var logged := r.(log := r.log + Beginnings(table, level, r));
    var q := RunLevel(table, level, r);
    SettleEffect(level, outcomes, logged);
    SettleLog(level, outcomes, logged);
    CompletedOfMembers(level, outcomes);
    forall v
      ensures v in q.completedOrder <==> v in q.executions && v in done + Elements(level) && q.executions[v].status == Completed
    {
      if v in level {
        var i :| 0 <= i < |level| && level[i] == v;
        assert Recorded(q, level[i], outcomes[i]);
      } else {
        assert Untouched(logged, q, v);
      }
    }
  }

  lemma OrderlySteps(table: StepTable, level: seq<Id>, r: Run, done: set<Id>)
    requires Orderly(table, r, done) && Fits(table, level, done)
    ensures var q := RunLevel(table, level, r);
      && q.executions.Keys == table.Keys
      && (forall v :: v in done + Elements(level) ==> StepOrderly(table, q, done + Elements(level), v))
      && (forall v :: v in q.state.outputs ==> v in done + Elements(level))
      && (q.failure.None? <==> forall v :: v in done + Elements(level) ==> q.executions[v].status != Failed)
      && (r.failure.None? && q.failure.None? ==> !FailureRecorded(q.log))
  {
    var outcomes := Outcomes(table, level, r);
    var begun := Beginnings(table, level, r);
    var logged := r.(log := r.log + begun);
    var q := RunLevel(table, level, r);
    SettleEffect(level, outcomes, logged);
    SettleLog(level, outcomes, logged);
    forall v
      ensures v in q.executions <==> v in table
      ensures v in q.state.outputs ==> v in done + Elements(level)
      ensures v in done + Elements(level) ==> StepOrderly(table, q, done + Elements(level), v)
      ensures v in done ==> q.executions[v] == r.executions[v]
    {
      if v in level {
        var i :| 0 <= i < |level| && level[i] == v;
        assert Recorded(q, level[i], outcomes[i]);
        OutcomeStatus(table[v], r);
        assert Settlements(level, outcomes)[i] in q.log;
      } else {
        assert Untouched(logged, q, v);
        if v in done {
          assert StepOrderly(table, r, done, v);
        }
      }
    }
    forall i | 0 <= i < |level|
      ensures q.executions[level[i]] == outcomes[i] && level[i] in level
    {
      assert Recorded(q, level[i], outcomes[i]);
    }
    if r.failure.None? && q.failure.None? {
      BeginningsMembers(table, level, r);
      FailureAppears(r.log, begun, level, outcomes);
    }
  }

  /** Every run that does not throw is orderly on the levels it executed: all of them unless something failed. */
  lemma {:induction false} RunsOrderly(table: StepTable, levels: seq<seq<Id>>, active: nat -> bool, start: Run) returns (n: nat)
    requires Known(table, levels) && FitsUpto(table, levels)
    requires Orderly(table, start, {})
    requires RunLevels(table, levels, active, start).Ok?
    ensures var r := RunLevels(table, levels, active, start).value;
      n <= |levels| && Orderly(table, r, Upto(levels, n)) && (r.failure.None? ==> n == |levels|)
    decreases |levels|
  {
    if levels == [] {
      n := 0;
    } else {
      var last := |levels| - 1;
      FitsPrefix(table, levels, last);
      n := RunsOrderly(table, levels[..last], active, start);
      UptoPrefix(levels, last, n);
      var before := RunLevels(table, levels[..last], active, start).value;
      if before.failure.None? {
        assert LevelFits(table, levels, last);
        LevelKeepsOrderly(table, levels[last], before, Upto(levels, last));
        n := |levels|;
      }
    }
  }

  function UndoCalls(ids: seq<Id>): seq<Event> {
    seq(|ids|, i requires 0 <= i < |ids| => UndoCalled(ids[i]))
  }

  predicate HasUndo(table: StepTable, v: Id) {
    v in table && table[v].compensate.Some?
  }

  function Compensable(table: StepTable, ids: seq<Id>): seq<Id> {
    Filter(ids, v => HasUndo(table, v))
  }

  lemma CompensableLast(table: StepTable, ids: seq<Id>)
    requires ids != []
    ensures Compensable(table, ids)
      == Compensable(table, ids[..|ids| - 1]) + (if HasUndo(table, ids[|ids| - 1]) then [ids[|ids| - 1]] else [])
  {
    assert ids == ids[..|ids| - 1] + [ids[|ids| - 1]];
    FilterAppend(ids[..|ids| - 1], ids[|ids| - 1], v => HasUndo(table, v));
  }

  lemma ReversedCalls(ids: seq<Id>, v: Id)
    ensures UndoCalls(Reversed(ids + [v])) == [UndoCalled(v)] + UndoCalls(Reversed(ids))
  {
  }

  /** Compensation calls the undo handlers of exactly the given steps that have one, last step first. */
  lemma {:induction false} UndoVisitsInReverse(table: StepTable, ids: seq<Id>, r: Run)
    ensures Undo(table, ids, r).log == r.log + UndoCalls(Reversed(Compensable(table, ids)))
    decreases ids
  {
    if ids == [] {
    } else {
      var front, v := ids[..|ids| - 1], ids[|ids| - 1];
      UndoVisitsInReverse(table, front, UndoOne(table, v, r));
      CompensableLast(table, ids);
      ReversedCalls(Compensable(table, front), v);
      assert UndoOne(table, v, r).log == if HasUndo(table, v) then r.log + [UndoCalled(v)] else r.log;
    }
  }

  /** The execution of a compensated step whose undo handler returns becomes `Undone`; nothing else changes. */
  lemma {:induction false} UndoEffect(table: StepTable, ids: seq<Id>, r: Run, w: Id)
    requires Distinct(ids) && w in r.executions
    ensures var q := Undo(table, ids, r);
      && q.state == r.state && q.failure == r.failure && q.executions.Keys == r.executions.Keys
      && q.executions[w] ==
           if w in ids && w in table && table[w].compensate.Some? && table[w].compensate.value(r.state)
           then r.executions[w].(status := Undone) else r.executions[w]
    decreases ids
  {
    if ids == [] {
    } else {
      var front, v := ids[..|ids| - 1], ids[|ids| - 1];
      assert v !in front;
      UndoEffect(table, front, UndoOne(table, v, r), w);
      assert w in ids <==> w in front || w == v;
    }
  }

  ghost predicate CalledBefore(log: seq<Event>, v: Id, d: Id) {
    exists i, j :: 0 <= i < j < |log| && log[i] == UndoCalled(v) && log[j] == UndoCalled(d)
  }

  /** No step is compensated before a completed step that relies on it. */
  lemma {:induction false} DependentsUndoneFirst(table: StepTable, r: Run, done: set<Id>, v: Id, d: Id)
    requires Orderly(table, r, done) && ReliesOn(table, v, d)
    requires v in r.completedOrder && d in r.completedOrder && HasUndo(table, v) && HasUndo(table, d)
    ensures CalledBefore(Undo(table, r.completedOrder, r).log, v, d)
  {
    var order := r.completedOrder;
    var j :| 0 <= j < |order| && order[j] == v;
    assert ReliesOn(table, order[j], d);
    assert d in order[..j];
    var i :| 0 <= i < j && order[i] == d;
    var a, b := FilterOrder(order, v => HasUndo(table, v), i, j);
    UndoVisitsInReverse(table, order, r);
    ReversedOrder(r.log, Compensable(table, order), a, b);
  }

  lemma ReversedOrder(log: seq<Event>, ids: seq<Id>, a: nat, b: nat)
    requires a < b < |ids|
    ensures CalledBefore(log + UndoCalls(Reversed(ids)), ids[b], ids[a])
  {
    var all := log + UndoCalls(Reversed(ids));
    assert all[|log| + |ids| - 1 - b] == UndoCalled(ids[b]) && all[|log| + |ids| - 1 - a] == UndoCalled(ids[a]);
  }

  lemma UndoKeepsStarts(table: StepTable, log: seq<Event>, more: seq<Event>)
    requires StartsAfterDependencies(table, log) && NoStartAfterFailure(log)
    requires forall e :: e in more ==> e.UndoCalled?
    ensures StartsAfterDependencies(table, log + more) && NoStartAfterFailure(log + more)
  {
    var all := log + more;
    assert forall i :: |log| <= i < |all| ==> all[i] in more;
    forall i | 0 <= i < |log|
      ensures all[..i] == log[..i]
    {
    }
  }

  lemma InitialOrderly(definition: Definition, input: Json)
    requires Registrable(definition)
    ensures var table, start := TableOf(definition.steps), Initial(definition.steps, input);
      Orderly(table, start, {}) && forall v :: v in table ==> v in start.executions && start.executions[v].status == Pending
  {
  }

  /** What a run comes to before compensation: orderly, and complete unless something failed. */
  lemma OutcomeOrderly(definition: Definition, levels: seq<seq<Id>>, active: nat -> bool, input: Json) returns (done: set<Id>)
    requires Registrable(definition) && IsPlanFor(definition, levels)
    requires RunLevels(TableOf(definition.steps), levels, active, Initial(definition.steps, input)).Ok?
    ensures var table := TableOf(definition.steps);
      var r := RunLevels(table, levels, active, Initial(definition.steps, input)).value;
      Orderly(table, r, done) && (r.failure.None? ==> done == table.Keys)
  {
    LevelsAreSchedule(definition, levels);
    InitialOrderly(definition, input);
    var n := RunsOrderly(TableOf(definition.steps), levels, active, Initial(definition.steps, input));
    done := Upto(levels, n);
  }

  /**
   Saga safety: in every run that `execute` returns, steps start only after their dependencies are completed or
   skipped and never after a failure has been recorded.
   */
  lemma {:induction false} SagaSafety(definition: Definition, levels: seq<seq<Id>>, active: nat -> bool, input: Json)
    requires Registrable(definition) && IsPlanFor(definition, levels)
    requires Outcome(definition, levels, active, input).Ok?
    ensures StartsAfterDependencies(TableOf(definition.steps), Outcome(definition, levels, active, input).value.log)
    ensures NoStartAfterFailure(Outcome(definition, levels, active, input).value.log)
  {
    var table := TableOf(definition.steps);
    var done := OutcomeOrderly(definition, levels, active, input);
    var r := RunLevels(table, levels, active, Initial(definition.steps, input)).value;
    UndoVisitsInReverse(table, r.completedOrder, r);
    UndoKeepsStarts(table, r.log, UndoCalls(Reversed(Compensable(table, r.completedOrder))));
  }

  /** A run is `completed` exactly when no step failed, and then every step completed or was skipped. */
  lemma {:induction false} CompletedMeansNoFailure(definition: Definition, levels: seq<seq<Id>>, active: nat -> bool, input: Json)
    requires Registrable(definition) && IsPlanFor(definition, levels)
    requires Outcome(definition, levels, active, input).Ok?
    ensures var table, final := TableOf(definition.steps), Outcome(definition, levels, active, input).value;
      && final.executions.Keys == table.Keys
      && (StatusOf(definition, final) == RunCompleted <==> forall v :: v in table ==> final.executions[v].status != Failed)
      && (StatusOf(definition, final) == RunCompleted ==>
            forall v :: v in table ==> final.executions[v].status in {Completed, Skipped})
  {
    var table := TableOf(definition.steps);
    var done := OutcomeOrderly(definition, levels, active, input);
    var r := RunLevels(table, levels, active, Initial(definition.steps, input)).value;
    if r.failure.Some? {
      var failed :| failed in done && r.executions[failed].status == Failed;
      UndoEffect(table, r.completedOrder, r, failed);
    } else {
      forall v | v in table
        ensures r.executions[v].status in {Completed, Skipped}
      {
        assert StepOrderly(table, r, done, v);
      }
    }
  }

  // Single steps of whole runs.

  lemma {:induction false} SettleLeaves(level: seq<Id>, outcomes: seq<Execution>, r: Run, v: Id)
    requires |level| == |outcomes| && v !in level && v in r.executions
    ensures v in Settle(level, outcomes, r).executions && Settle(level, outcomes, r).executions[v] == r.executions[v]
  {
    if level == [] {
    } else {
      var last := |level| - 1;
      SettleLeaves(level[..last], outcomes[..last], r, v);
      assert level[last] != v;
    }
  }

  lemma LevelLeaves(table: StepTable, level: seq<Id>, r: Run, v: Id)
    requires v !in level && v in r.executions && forall w :: w in level ==> w in table
    ensures var q := RunLevel(table, level, r); v in q.executions && q.executions[v] == r.executions[v]
  {
    SettleLeaves(level, Outcomes(table, level, r), r.(log := r.log + Beginnings(table, level, r)), v);
  }

  /** The execution of a step is what it was as long as its level has not been reached. */
  lemma {:induction false} NotYetReached(table: StepTable, levels: seq<seq<Id>>, active: nat -> bool, start: Run, v: Id)
    requires Known(table, levels) && RunLevels(table, levels, active, start).Ok? && v in start.executions
    requires forall k :: 0 <= k < |levels| ==> v !in levels[k]
    ensures var r := RunLevels(table, levels, active, start).value; v in r.executions && r.executions[v] == start.executions[v]
    decreases |levels|
  {
    if levels == [] {
    } else {
      var last := |levels| - 1;
      NotYetReached(table, levels[..last], active, start, v);
      LevelLeaves(table, levels[last], RunLevels(table, levels[..last], active, start).value, v);
    }
  }

  lemma OwnLevelOnly(table: StepTable, levels: seq<seq<Id>>, j: nat, k: nat, v: Id)
    requires FitsUpto(table, levels) && j < k < |levels| && v in levels[j]
    ensures v !in levels[k]
  {
    FitsAt(table, levels, k);
    UptoMember(levels, k, v);
  }

  lemma SkippedInLevel(table: StepTable, levels: seq<seq<Id>>, active: nat -> bool, start: Run, v: Id)
    requires Known(table, levels) && FitsUpto(table, levels) && levels != [] && v in levels[|levels| - 1]
    requires Orderly(table, start, {}) && v in start.executions && start.executions[v].status == Pending
    requires RunLevels(table, levels, active, start).Ok?
    ensures var before, r := RunLevels(table, levels[..|levels| - 1], active, start), RunLevels(table, levels, active, start).value;
      before.Ok? && v in table && v in r.executions
      && (r.executions[v].status == Skipped <==> Succeeds(before) && !WantsToRun(table[v], before.value.state))
  {
    var last := |levels| - 1;
    var before := RunLevels(table, levels[..last], active, start).value;
    FitsAt(table, levels, last);
    FitsPrefix(table, levels, last);
    forall k | 0 <= k < last
      ensures v !in levels[..last][k]
    {
      if v in levels[k] { OwnLevelOnly(table, levels, k, last, v); }
    }
    NotYetReached(table, levels[..last], active, start, v);
    if before.failure.None? {
      var n := RunsOrderly(table, levels[..last], active, start);
      UptoPrefix(levels, last, last);
      SkippedOnlyByCondition(table, before, Upto(levels, last), v);
      LevelOutcome(table, levels[last], before, v);
    }
  }

  lemma {:induction false} SkippedInRun(table: StepTable, levels: seq<seq<Id>>, active: nat -> bool, start: Run, k: nat, v: Id)
    requires Known(table, levels) && FitsUpto(table, levels) && k < |levels| && v in levels[k]
    requires Orderly(table, start, {}) && v in start.executions && start.executions[v].status == Pending
    requires RunLevels(table, levels, active, start).Ok?
    ensures var before, r := RunLevels(table, levels[..k], active, start), RunLevels(table, levels, active, start).value;
      before.Ok? && v in table && v in r.executions
      && (r.executions[v].status == Skipped <==> Succeeds(before) && !WantsToRun(table[v], before.value.state))
    decreases |levels|
  {
    var last := |levels| - 1;
    if k == last {
      SkippedInLevel(table, levels, active, start, v);
    } else {
      FitsPrefix(table, levels, last);
      assert levels[..last][..k] == levels[..k] && levels[..last][k] == levels[k];
      SkippedInRun(table, levels[..last], active, start, k, v);
      OwnLevelOnly(table, levels, k, last, v);
      LevelLeaves(table, levels[last], RunLevels(table, levels[..last], active, start).value, v);
    }
  }

  /** Compensation turns no step into a skipped one, nor a skipped one into another. */
  lemma FinishKeepsSkips(definition: Definition, table: StepTable, r: Run, done: set<Id>, v: Id)
    requires Orderly(table, r, done) && v in r.executions
    ensures var final := Finish(definition, table, r);
      v in final.executions && (final.executions[v].status == Skipped <==> r.executions[v].status == Skipped)
  {
    UndoEffect(table, r.completedOrder, r, v);
  }

  /** In every run that `execute` returns, a step is recorded as skipped exactly if its level was executed and its own `when` refused. */
  lemma {:induction false} SkippedIff(definition: Definition, levels: seq<seq<Id>>, active: nat -> bool, input: Json, k: nat, v: Id)
    requires Registrable(definition) && IsPlanFor(definition, levels) && k < |levels| && v in levels[k]
    requires Outcome(definition, levels, active, input).Ok?
    ensures Known(TableOf(definition.steps), levels[..k])
    ensures var table, final := TableOf(definition.steps), Outcome(definition, levels, active, input).value;
      var before := RunLevels(table, levels[..k], active, Initial(definition.steps, input));
      v in table && v in final.executions
      && (final.executions[v].status == Skipped <==> Succeeds(before) && !WantsToRun(table[v], before.value.state))
  {
    var table, start := TableOf(definition.steps), Initial(definition.steps, input);
    var done := OutcomeOrderly(definition, levels, active, input);
    var r := RunLevels(table, levels, active, start).value;
    LevelsAreSchedule(definition, levels);
    InitialOrderly(definition, input);
    SkippedInRun(table, levels, active, start, k, v);
    FinishKeepsSkips(definition, table, r, done, v);
  }

  /** In every compensated run, no step is compensated before a completed step that relies on it, even through skipped steps. */
  lemma {:induction false} CompensationInOrder(definition: Definition, levels: seq<seq<Id>>, active: nat -> bool, input: Json, v: Id, d: Id)
    requires Registrable(definition) && IsPlanFor(definition, levels)
    requires Outcome(definition, levels, active, input).Ok?
    requires var table, final := TableOf(definition.steps), Outcome(definition, levels, active, input).value;
      && StatusOf(definition, final) == RunCompensated
      && HasUndo(table, v) && HasUndo(table, d) && ReliesOn(table, v, d)
      && v in final.completedOrder && d in final.completedOrder
    ensures CalledBefore(Outcome(definition, levels, active, input).value.log, v, d)
  {
    var table := TableOf(definition.steps);
    var done := OutcomeOrderly(definition, levels, active, input);
    var r := RunLevels(table, levels, active, Initial(definition.steps, input)).value;
    UndoKeepsOrder(table, r.completedOrder, r);
    DependentsUndoneFirst(table, r, done, v, d);
  }

  lemma {:induction false} UndoKeepsOrder(table: StepTable, ids: seq<Id>, r: Run)
    ensures Undo(table, ids, r).completedOrder == r.completedOrder && Undo(table, ids, r).failure == r.failure
    decreases ids
  {
    if ids == [] {
    } else {
      UndoKeepsOrder(table, ids[..|ids| - 1], UndoOne(table, ids[|ids| - 1], r));
    }
  }
}
