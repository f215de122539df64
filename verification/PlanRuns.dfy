/** Whole runs of a plan under its callers' protocol: soundness, progress and termination. */
module PlanRuns {
  import opened Prelude
  import opened Dag
  import opened Planning

  predicate Allowed(from: StepStatus, to: StepStatus) {
    (from == Ready && to == Running) || (from == Running && (to == Completed || to == Failed))
  }

  ghost predicate ProtocolUpdate(p: Plan, q: Plan) {
    exists i, status :: 0 <= i < |p.steps| && Allowed(p.steps[i].status, status) && q == Updated(p, i, status)
  }

  /** A run starts from what `compile` returned and applies protocol updates. */
  ghost predicate IsRun(run: seq<Plan>) {
    && |run| >= 1
    && (exists steps: seq<Step> :: Accepted(steps) && (forall s: Step :: s in steps ==> s.status == Pending)
                        && run[0] == Plan(PlanReady, MarkReady(steps)))
    && forall k :: 0 <= k < |run| - 1 ==> ProtocolUpdate(run[k], run[k + 1])
  }

  /** A step is past `pending` exactly when all its dependencies are completed. */
  predicate StepSound(s: Step, done: set<Id>) {
    s.status != Skipped && (s.status == Pending <==> !DependenciesIn(s, done))
  }

  ghost predicate AllSound(steps: seq<Step>) {
    forall i :: 0 <= i < |steps| ==> StepSound(steps[i], CompletedIds(steps))
  }

  ghost predicate Sound(p: Plan) {
    && Accepted(p.steps)
    && p.steps != []
    && AllSound(p.steps)
    && p.status == DeriveStatus(p.steps, PlanReady)
  }

  /** Updates a step still needs, at most. */
  function WorkOf(status: StepStatus): nat {
    match status
    case Pending | Ready => 2
    case Running => 1
    case Completed | Failed | Skipped => 0
  }

  function Work(steps: seq<Step>): nat {
    if steps == [] then 0 else WorkOf(steps[0].status) + Work(steps[1..])
  }

  lemma CompletedAt(steps: seq<Step>, i: nat)
    requires i < |steps|
    ensures steps[i].status == Completed ==> steps[i].id in CompletedIds(steps)
  {
    assert steps[i] in steps;
  }

  lemma MarkingKeepsMembers(steps: seq<Step>, s: Step)
    requires s.status != Pending && s.status != Ready
    ensures s in MarkReady(steps) <==> s in steps
  {
    var marked := MarkReady(steps);
    if s in steps { var i :| 0 <= i < |steps| && steps[i] == s; assert marked[i] == s; }
    if s in marked { var i :| 0 <= i < |steps| && marked[i] == s; assert steps[i] == s; }
  }

  lemma MarkingKeepsCompleted(steps: seq<Step>)
    ensures CompletedIds(MarkReady(steps)) == CompletedIds(steps)
  {
    forall s: Step | s.status == Completed
      ensures s in MarkReady(steps) <==> s in steps
    {
      MarkingKeepsMembers(steps, s);
    }
  }

  predicate Over(status: StepStatus) {
    status == Completed || status == Skipped
  }

  /** Marking changes no status that the plan status depends on. */
  lemma MarkingKeepsStatus(steps: seq<Step>)
    ensures DeriveStatus(MarkReady(steps), PlanReady) == DeriveStatus(steps, PlanReady)
  {
    var marked := MarkReady(steps);
    forall s: Step | s.status != Pending && s.status != Ready
      ensures s in marked <==> s in steps
    {
      MarkingKeepsMembers(steps, s);
    }
    assert (exists s :: s in marked && !Over(s.status)) <==> (exists s :: s in steps && !Over(s.status)) by {
      forall i | 0 <= i < |steps|
        ensures Over(marked[i].status) <==> Over(steps[i].status)
        ensures marked[i] in marked && steps[i] in steps
      {
      }
    }
  }

  lemma MarkingKeepsStructure(steps: seq<Step>)
    requires Distinct(Ids(steps))
    ensures Accepted(steps) ==> Accepted(MarkReady(steps))
    ensures Work(MarkReady(steps)) == Work(steps)
  {
    SameGraph(steps, MarkReady(steps));
    SameWork(steps, MarkReady(steps));
  }

  lemma SameWork(a: seq<Step>, b: seq<Step>)
    requires |a| == |b| && forall i :: 0 <= i < |a| ==> WorkOf(a[i].status) == WorkOf(b[i].status)
    ensures Work(a) == Work(b)
  {
    if a == [] {
    } else {
      SameWork(a[1..], b[1..]);
    }
  }

  lemma {:induction false} WorkUpdate(steps: seq<Step>, i: nat, s: Step)
    requires i < |steps|
    ensures Work(steps[i := s]) == Work(steps) - WorkOf(steps[i].status) + WorkOf(s.status)
  {
    if i == 0 {
      assert steps[0 := s][1..] == steps[1..];
    } else {
      WorkUpdate(steps[1..], i - 1, s);
      assert steps[i := s][1..] == steps[1..][i - 1 := s];
    }
  }

  lemma MarkedStepsSound(steps: seq<Step>)
    requires forall i :: 0 <= i < |steps| ==> steps[i].status != Skipped
    requires forall i :: 0 <= i < |steps| && steps[i].status != Pending ==> DependenciesIn(steps[i], CompletedIds(steps))
    ensures AllSound(MarkReady(steps))
  {
    MarkingKeepsCompleted(steps);
  }

  lemma CompiledSound(steps: seq<Step>)
    requires Accepted(steps) && steps != [] && forall s: Step :: s in steps ==> s.status == Pending
    ensures Sound(Plan(PlanReady, MarkReady(steps)))
  {
    MarkedStepsSound(steps);
    MarkingKeepsStatus(steps);
    MarkingKeepsStructure(steps);
    assert steps[0] in steps;
  }

  lemma UpdateGrowsCompleted(steps: seq<Step>, i: nat, s: Step)
    requires i < |steps| && steps[i].status != Completed
    ensures CompletedIds(steps) <= CompletedIds(steps[i := s])
  {
    forall t | t in steps && t.status == Completed
      ensures t in steps[i := s]
    {
      var j :| 0 <= j < |steps| && steps[j] == t;
      assert steps[i := s][j] == t;
    }
  }

  lemma UpdateStatuses(steps: seq<Step>, i: nat, status: StepStatus)
    requires i < |steps| && AllSound(steps) && Allowed(steps[i].status, status)
    ensures AllSound(MarkReady(steps[i := steps[i].(status := status)]))
  {
    var updated := steps[i := steps[i].(status := status)];
    UpdateGrowsCompleted(steps, i, steps[i].(status := status));
    forall j | 0 <= j < |updated| && updated[j].status != Pending
      ensures DependenciesIn(updated[j], CompletedIds(updated))
    {
      assert StepSound(steps[j], CompletedIds(steps));
    }
    assert forall j :: 0 <= j < |steps| ==> StepSound(steps[j], CompletedIds(steps));
    MarkedStepsSound(updated);
  }

  /** One protocol update keeps a plan sound and uses up exactly one unit of work. */
  lemma {:induction false} UpdateSound(p: Plan, i: nat, status: StepStatus)
    requires Sound(p) && i < |p.steps| && Allowed(p.steps[i].status, status)
    ensures Sound(Updated(p, i, status))
    ensures Work(Updated(p, i, status).steps) == Work(p.steps) - 1
  {
    var moved := p.steps[i].(status := status);
    var steps := p.steps[i := moved];
    SameGraph(p.steps, steps);
    UpdateStatuses(p.steps, i, status);
    MarkingKeepsStatus(steps);
    MarkingKeepsStructure(steps);
    WorkUpdate(p.steps, i, moved);
  }

  /** What `compile` returns starts a run. */
  lemma {:induction false} CompileStartsRun(drafts: seq<Draft>, maxSteps: nat)
    requires WellFormed(drafts, maxSteps) && !HasCycle(GraphOf(StepsFrom(drafts)))
    ensures IsRun([Plan(PlanReady, MarkReady(StepsFrom(drafts)))])
  {
    CompiledAccepted(drafts, maxSteps);
    assert forall s: Step :: s in StepsFrom(drafts) ==> s.status == Pending;
  }

  /** Every plan of every run is sound, and its work plus the updates so far is two per step. */
  lemma {:induction false} RunsSound(run: seq<Plan>, k: nat)
    requires IsRun(run) && run[0].steps != [] && k < |run|
    ensures Sound(run[k]) && |run[k].steps| == |run[0].steps|
    ensures Work(run[k].steps) + k == 2 * |run[0].steps|
  {
    if k == 0 {
      var steps: seq<Step> :| Accepted(steps) && (forall s: Step :: s in steps ==> s.status == Pending)
        && run[0] == Plan(PlanReady, MarkReady(steps));
      CompiledSound(steps);
      MarkingKeepsStructure(steps);
      PendingWork(steps);
    } else {
      RunsSound(run, k - 1);
      assert ProtocolUpdate(run[k - 1], run[k - 1 + 1]);
      var i, status :| 0 <= i < |run[k - 1].steps| && Allowed(run[k - 1].steps[i].status, status)
        && run[k] == Updated(run[k - 1], i, status);
      UpdateSound(run[k - 1], i, status);
    }
  }

  lemma {:induction false} PendingWork(steps: seq<Step>)
    requires forall s: Step :: s in steps ==> s.status == Pending
    ensures Work(steps) == 2 * |steps|
  {
    if steps == [] {
    } else {
      PendingWork(steps[1..]);
    }
  }

  /** `readySteps` computes exactly the steps stored as `ready`. */
  lemma {:induction false} ReadyStepsAreStored(p: Plan)
    requires Sound(p)
    ensures ReadySteps(p) == Filter(p.steps, (s: Step) => s.status == Ready)
  {
    var done := CompletedIds(p.steps);
    forall s | s in p.steps
      ensures ((s.status == Pending || s.status == Ready) && DependenciesIn(s, done)) == (s.status == Ready)
    {
      var i :| 0 <= i < |p.steps| && p.steps[i] == s;
      assert StepSound(p.steps[i], done);
    }
    FilterCongruent(p.steps, (s: Step) => (s.status == Pending || s.status == Ready) && DependenciesIn(s, done),
                    (s: Step) => s.status == Ready);
  }

  lemma WaitingDepends(steps: seq<Step>, v: Id)
    requires Accepted(steps) && AllSound(steps) && v in GraphOf(steps) && v !in CompletedIds(steps)
    requires forall i :: 0 <= i < |steps| ==> steps[i].status == Pending || steps[i].status == Completed
    ensures DependsWithin(GraphOf(steps), v, GraphOf(steps).Keys - CompletedIds(steps))
  {
    var i :| 0 <= i < |steps| && steps[i].id == v;
    CompletedAt(steps, i);
    assert StepSound(steps[i], CompletedIds(steps));
    var d :| d in steps[i].dependsOn && d !in CompletedIds(steps);
    EdgeOf(steps, i, d);
  }

  lemma UncompletedId(steps: seq<Step>, s: Step)
    requires Distinct(Ids(steps)) && s in steps && s.status != Completed
    ensures s.id in GraphOf(steps) && s.id !in CompletedIds(steps)
  {
    var i :| 0 <= i < |steps| && steps[i] == s;
    forall t | t in steps && t.status == Completed
      ensures t.id != s.id
    {
      var j :| 0 <= j < |steps| && steps[j] == t;
      assert Ids(steps)[i] != Ids(steps)[j];
    }
  }

  lemma SettledStepsCompleted(steps: seq<Step>)
    requires Accepted(steps) && AllSound(steps)
    requires forall i :: 0 <= i < |steps| ==> steps[i].status == Pending || steps[i].status == Completed
    ensures GraphOf(steps).Keys <= CompletedIds(steps)
  {
    var g, done := GraphOf(steps), CompletedIds(steps);
    var waiting := g.Keys - done;
    if waiting != {} {
      forall v | v in waiting
        ensures DependsWithin(g, v, waiting)
      {
        WaitingDepends(steps, v);
      }
      DescentGivesCycle(g, waiting);
    }
    forall v | v in g
      ensures v in done
    {
      assert v !in waiting;
    }
  }

  /** A sound plan that has neither failed nor completed always has a step to start or to finish. */
  lemma {:induction false} NeverDeadlocked(p: Plan)
    requires Sound(p) && p.status != PlanFailed && p.status != PlanCompleted
    ensures exists i :: 0 <= i < |p.steps| && (p.steps[i].status == Ready || p.steps[i].status == Running)
  {
    var steps := p.steps;
    if forall i :: 0 <= i < |steps| ==> steps[i].status != Ready && steps[i].status != Running {
      forall i | 0 <= i < |steps|
        ensures steps[i].status == Pending || steps[i].status == Completed
      {
        assert StepSound(steps[i], CompletedIds(steps)) && steps[i] in steps;
      }
      SettledStepsCompleted(steps);
      var s :| s in steps && !(s.status == Completed || s.status == Skipped);
      UncompletedId(steps, s);
    }
  }

  /** No protocol update applies. */
  ghost predicate Stuck(p: Plan) {
    forall q :: !ProtocolUpdate(p, q)
  }

  lemma CanGoOn(p: Plan, i: nat)
    requires i < |p.steps| && (p.steps[i].status == Ready || p.steps[i].status == Running)
    ensures !Stuck(p)
  {
    var next := if p.steps[i].status == Ready then Running else Completed;
    assert Allowed(p.steps[i].status, next);
    assert ProtocolUpdate(p, Updated(p, i, next));
  }

  /** No run takes more than two updates per step, and one that cannot go on has finished. */
  lemma {:induction false} RunsFinish(run: seq<Plan>)
    requires IsRun(run) && run[0].steps != []
    ensures |run| - 1 <= 2 * |run[0].steps|
    ensures Stuck(run[|run| - 1]) ==> run[|run| - 1].status == PlanFailed || run[|run| - 1].status == PlanCompleted
  {
    var p := run[|run| - 1];
    RunsSound(run, |run| - 1);
    if p.status != PlanFailed && p.status != PlanCompleted {
      NeverDeadlocked(p);
      var i :| 0 <= i < |p.steps| && (p.steps[i].status == Ready || p.steps[i].status == Running);
      CanGoOn(p, i);
    }
  }

  lemma {:induction false} FullWork(steps: seq<Step>)
    ensures Work(steps) <= 2 * |steps|
    ensures Work(steps) == 2 * |steps| <==> forall s: Step :: s in steps ==> s.status == Pending || s.status == Ready
  {
    if steps == [] {
    } else {
      FullWork(steps[1..]);
      assert steps == [steps[0]] + steps[1..];
    }
  }

  /** The status of a plan in a run: ready before the first update, completed when all its steps are, failed as soon as one is. */
  lemma {:induction false} RunStatus(run: seq<Plan>, k: nat)
    requires IsRun(run) && run[0].steps != [] && k < |run|
    ensures run[k].status == PlanReady <==> k == 0
    ensures run[k].status == PlanCompleted <==> forall s: Step :: s in run[k].steps ==> s.status == Completed
    ensures run[k].status == PlanFailed <==> exists s: Step :: s in run[k].steps && s.status == Failed
    ensures run[k].status != PlanCancelled
  {
    RunsSound(run, k);
    var steps := run[k].steps;
    FullWork(steps);
    forall s | s in steps
      ensures s.status != Skipped
    {
      var i :| 0 <= i < |steps| && steps[i] == s;
      assert StepSound(steps[i], CompletedIds(steps));
    }
    assert steps[0] in steps;
  }
}
