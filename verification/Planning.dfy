/**
 Plans and the step state machine of `planning-engine.ts`.

 A plan is driven by the protocol of its callers: a `ready` step is moved to
 `running`, a `running` step to `completed` or `failed`.
 */
module Planning {
  import opened Prelude
  import opened Dag
  import CycleCheck
  import Levels
  import CriticalPath

  datatype StepStatus = Pending | Ready | Running | Completed | Failed | Skipped
  datatype PlanStatus = PlanReady | PlanExecuting | PlanCompleted | PlanFailed | PlanCancelled

  datatype Step = Step(id: Id, dependsOn: seq<Id>, cost: real, status: StepStatus)
  datatype Plan = Plan(status: PlanStatus, steps: seq<Step>)
  datatype Draft = Draft(id: Option<Id>, dependsOn: seq<Id>, cost: Option<real>)

  /** Decimal digits of a number, as a template string prints it. */
  function Digits(n: nat): string {
    (if n < 10 then "" else Digits(n / 10)) + ["0123456789"[n % 10]]
  }

  /** `[...new Set(s)]` */
  function Dedupe(s: seq<Id>): (r: seq<Id>)
    ensures Distinct(r) && Elements(r) == Elements(s)
  {
    if s == [] then []
    else
      var front := Dedupe(s[..|s| - 1]);
      assert Elements(s) == Elements(s[..|s| - 1]) + {s[|s| - 1]};
      if s[|s| - 1] in front then front else front + [s[|s| - 1]]
  }

  function StepFrom(draft: Draft, index: nat): Step {
    Step(draft.id.GetOr("step-" + Digits(index + 1)), Dedupe(draft.dependsOn), draft.cost.GetOr(1.0), Pending)
  }

  function StepsFrom(drafts: seq<Draft>): (steps: seq<Step>)
    ensures |steps| == |drafts|
  {
    seq(|drafts|, i requires 0 <= i < |drafts| => StepFrom(drafts[i], i))
  }

  function Ids(steps: seq<Step>): (ids: seq<Id>)
    ensures |ids| == |steps| && forall i :: 0 <= i < |ids| ==> ids[i] == steps[i].id
  {
    seq(|steps|, i requires 0 <= i < |steps| => steps[i].id)
  }

  /** `new Map(steps.map(step => [step.id, step]))`, keeping the dependencies. */
  function GraphOf(steps: seq<Step>): Graph
    requires Distinct(Ids(steps))
  {
    assert forall i :: 0 <= i < |steps| ==> Ids(steps)[i] == steps[i].id;
    map i | 0 <= i < |steps| :: steps[i].id := steps[i].dependsOn
  }

  function CostsOf(steps: seq<Step>): CriticalPath.Costs
    requires Distinct(Ids(steps))
  {
    assert forall i :: 0 <= i < |steps| ==> Ids(steps)[i] == steps[i].id;
    map i | 0 <= i < |steps| :: steps[i].id := steps[i].cost
  }

  function CompletedIds(steps: seq<Step>): set<Id> {
    set s | s in steps && s.status == Completed :: s.id
  }

  predicate DependenciesIn(step: Step, done: set<Id>) {
    forall d :: d in step.dependsOn ==> d in done
  }

  function MarkReady(steps: seq<Step>): (marked: seq<Step>)
    ensures |marked| == |steps|
  {
    var done := CompletedIds(steps);
    seq(|steps|, i requires 0 <= i < |steps| =>
      if steps[i].status == Pending && DependenciesIn(steps[i], done) then steps[i].(status := Ready) else steps[i])
  }

  function DeriveStatus(steps: seq<Step>, current: PlanStatus): PlanStatus {
    if current == PlanCancelled then current
    else if exists s :: s in steps && s.status == Failed then PlanFailed
    else if forall s :: s in steps ==> s.status == Completed || s.status == Skipped then PlanCompleted
    else if exists s :: s in steps && (s.status == Running || s.status == Completed) then PlanExecuting
    else PlanReady
  }

  function ReadySteps(plan: Plan): seq<Step> {
    var done := CompletedIds(plan.steps);
    Filter(plan.steps, (s: Step) => (s.status == Pending || s.status == Ready) && DependenciesIn(s, done))
  }

  function Updated(plan: Plan, index: nat, status: StepStatus): Plan
    requires index < |plan.steps|
  {
    var steps := plan.steps[index := plan.steps[index].(status := status)];
    Plan(DeriveStatus(steps, plan.status), MarkReady(steps))
  }

  /** What `compile` demands of its drafts, besides an acyclic dependency relation. */
  predicate WellFormed(drafts: seq<Draft>, maxSteps: nat) {
    var steps := StepsFrom(drafts);
    && 0 < |drafts| <= maxSteps
    && (forall s :: s in steps ==> s.cost >= 0.0)
    && (forall i, j :: 0 <= i < j < |steps| ==> Ids(steps)[i] != Ids(steps)[j])
    && (forall s, d :: s in steps && d in s.dependsOn ==> d in Ids(steps))
  }

  // What the caller of `compile` reads off the drafts.

  /** `s` is the decimal numeral of `n`, without leading zeros. */
  ghost predicate IsNumeral(s: string, n: nat) {
    s != [] && '0' <= s[|s| - 1] <= '9' && n % 10 == (s[|s| - 1] - '0') as int
    && if |s| == 1 then n < 10 else n >= 10 && IsNumeral(s[..|s| - 1], n / 10)
  }

  lemma {:induction false} DigitsAreNumeral(n: nat)
    ensures IsNumeral(Digits(n), n)
  {
    var front, last := if n < 10 then "" else Digits(n / 10), "0123456789"[n % 10];
    assert Digits(n) == front + [last] && (front + [last])[..|front|] == front;
    if n >= 10 { DigitsAreNumeral(n / 10); }
  }

  /** The id of the step that draft `i` becomes: its own, or "step-" and its number from 1. */
  ghost predicate Names(drafts: seq<Draft>, i: nat, id: Id) {
    i < |drafts| && match drafts[i].id
    case Some(given) => id == given
    case None => |id| > 5 && id[..5] == "step-" && IsNumeral(id[5..], i + 1)
  }

  /** The draft that names step `v` declares a dependency on `d`. */
  ghost predicate Declares(drafts: seq<Draft>, v: Id, d: Id) {
    exists i: nat :: Names(drafts, i, v) && d in drafts[i].dependsOn
  }

  ghost predicate DeclaredCycle(drafts: seq<Draft>, trail: seq<Id>) {
    |trail| >= 2 && trail[0] == trail[|trail| - 1] && forall k :: 0 <= k < |trail| - 1 ==> Declares(drafts, trail[k], trail[k + 1])
  }

  ghost predicate DependenciesNamed(drafts: seq<Draft>) {
    forall i, d :: 0 <= i < |drafts| && d in drafts[i].dependsOn ==> exists j :: Names(drafts, j, d)
  }

  ghost predicate CostsAllowed(drafts: seq<Draft>) {
    forall i :: 0 <= i < |drafts| && drafts[i].cost.Some? ==> drafts[i].cost.value >= 0.0
  }

  /** The drafts make a plan: few enough, no negative cost, distinct ids, known dependencies and no cycle. */
  ghost predicate Acceptable(drafts: seq<Draft>, maxSteps: nat) {
    && 0 < |drafts| <= maxSteps
    && CostsAllowed(drafts)
    && (forall i, j, id :: Names(drafts, i, id) && Names(drafts, j, id) ==> i == j)
    && DependenciesNamed(drafts)
    && forall trail :: !DeclaredCycle(drafts, trail)
  }

  /** `once` lists the same ids, each once, in the order of their first mention. */
  ghost predicate FirstMentions(ids: seq<Id>, once: seq<Id>) {
    && Distinct(once) && (forall d :: d in once <==> d in ids)
    && forall i, j :: 0 <= i < j < |once| ==> MentionedBefore(ids, once[i], once[j])
  }

  ghost predicate MentionedBefore(ids: seq<Id>, a: Id, b: Id) {
    exists k :: 0 <= k < |ids| && ids[k] == a && b !in ids[..k]
  }

  /** A step as its draft has it; without dependencies it is ready from the start. */
  ghost predicate FromDraft(drafts: seq<Draft>, i: nat, s: Step)
    requires i < |drafts|
  {
    && Names(drafts, i, s.id) && FirstMentions(drafts[i].dependsOn, s.dependsOn)
    && s.cost == (match drafts[i].cost case Some(c) => c case None => 1.0)
    && s.status == if drafts[i].dependsOn == [] then Ready else Pending
  }

  ghost predicate CompiledFrom(drafts: seq<Draft>, plan: Plan) {
    && plan.status == PlanReady && |plan.steps| == |drafts|
    && forall i :: 0 <= i < |drafts| ==> FromDraft(drafts, i, plan.steps[i])
  }

  lemma {:induction false} DedupeMentions(s: seq<Id>)
    ensures FirstMentions(s, Dedupe(s))
  {
    if s == [] {
    } else {
      var front, last := s[..|s| - 1], s[|s| - 1];
      DedupeMentions(front);
      assert s == front + [last];
      MentionsAppend(front, last, Dedupe(front));
    }
  }

  lemma MentionsAppend(front: seq<Id>, last: Id, once: seq<Id>)
    requires FirstMentions(front, once)
    ensures FirstMentions(front + [last], if last in once then once else once + [last])
  {
    var longer, all := front + [last], if last in once then once else once + [last];
    forall i, j | 0 <= i < j < |all|
      ensures MentionedBefore(longer, all[i], all[j])
    {
      if j < |once| {
        assert MentionedBefore(front, once[i], once[j]);
        MentionedStill(front, last, once[i], once[j]);
      } else {
        assert once[i] in once;
        var k :| 0 <= k < |front| && front[k] == once[i];
        assert longer[k] == once[i] && longer[..k] == front[..k];
      }
    }
  }

  lemma MentionedStill(front: seq<Id>, last: Id, a: Id, b: Id)
    requires MentionedBefore(front, a, b)
    ensures MentionedBefore(front + [last], a, b)
  {
    var k :| 0 <= k < |front| && front[k] == a && b !in front[..k];
    assert (front + [last])[k] == a && (front + [last])[..k] == front[..k];
  }

  lemma NamesOnce(drafts: seq<Draft>, i: nat, id: Id)
    requires i < |drafts|
    ensures Names(drafts, i, id) <==> id == StepFrom(drafts[i], i).id
  {
    if drafts[i].id.None? {
      DigitsAreNumeral(i + 1);
      var built := "step-" + Digits(i + 1);
      assert built[..5] == "step-" && built[5..] == Digits(i + 1);
      if Names(drafts, i, id) {
        NumeralUnique(id[5..], Digits(i + 1), i + 1);
        assert id == id[..5] + id[5..];
      }
    }
  }

  lemma {:induction false} NumeralUnique(s: string, t: string, n: nat)
    requires IsNumeral(s, n) && IsNumeral(t, n)
    ensures s == t
  {
    assert s == s[..|s| - 1] + [s[|s| - 1]] && t == t[..|t| - 1] + [t[|t| - 1]];
    if |s| > 1 { NumeralUnique(s[..|s| - 1], t[..|t| - 1], n / 10); }
  }

  /** The graph and the costs that levels and critical paths are about are those of the steps. */
  lemma {:induction false} StructureOf(steps: seq<Step>, i: nat, v: Id)
    requires Distinct(Ids(steps))
    ensures i < |steps| ==> steps[i].id in GraphOf(steps) && GraphOf(steps)[steps[i].id] == steps[i].dependsOn
    ensures i < |steps| ==> steps[i].id in CostsOf(steps) && CostsOf(steps)[steps[i].id] == steps[i].cost
    ensures v in GraphOf(steps) <==> v in Ids(steps)
    ensures v in CostsOf(steps) <==> v in Ids(steps)
  {
    if i < |steps| { assert Ids(steps)[i] == steps[i].id; }
    if v in Ids(steps) {
      var j :| 0 <= j < |steps| && Ids(steps)[j] == v;
      assert steps[j].id == v;
    }
  }

  lemma EdgeOf(steps: seq<Step>, i: nat, d: Id)
    requires Distinct(Ids(steps)) && i < |steps| && d in steps[i].dependsOn
    ensures DependsOn(GraphOf(steps), steps[i].id, d)
  {
  }

  lemma DraftEdges(drafts: seq<Draft>, v: Id, d: Id)
    requires Distinct(Ids(StepsFrom(drafts)))
    ensures Declares(drafts, v, d) <==> DependsOn(GraphOf(StepsFrom(drafts)), v, d)
  {
    var steps := StepsFrom(drafts);
    if Declares(drafts, v, d) {
      var i: nat :| Names(drafts, i, v) && d in drafts[i].dependsOn;
      NamesOnce(drafts, i, v);
      StepOfDraft(drafts, i);
      EdgeOf(steps, i, d);
    }
    if DependsOn(GraphOf(steps), v, d) {
      var i: nat :| i < |steps| && steps[i].id == v && d in steps[i].dependsOn;
      NamesOnce(drafts, i, v);
      StepOfDraft(drafts, i);
    }
  }

  lemma DraftCycles(drafts: seq<Draft>)
    requires Distinct(Ids(StepsFrom(drafts)))
    ensures HasCycle(GraphOf(StepsFrom(drafts))) <==> exists trail :: DeclaredCycle(drafts, trail)
  {
    forall trail: seq<Id>
      ensures DeclaredCycle(drafts, trail) <==> IsCycle(GraphOf(StepsFrom(drafts)), trail)
    {
      forall k | 0 <= k < |trail| - 1
        ensures Declares(drafts, trail[k], trail[k + 1]) <==> DependsOn(GraphOf(StepsFrom(drafts)), trail[k], trail[k + 1])
      {
        DraftEdges(drafts, trail[k], trail[k + 1]);
      }
    }
  }

  lemma DraftIds(drafts: seq<Draft>)
    ensures Distinct(Ids(StepsFrom(drafts))) <==> forall i, j, id :: Names(drafts, i, id) && Names(drafts, j, id) ==> i == j
    ensures forall d :: d in Ids(StepsFrom(drafts)) <==> exists j :: Names(drafts, j, d)
  {
    var ids := Ids(StepsFrom(drafts));
    forall i: nat, id | i < |drafts|
      ensures Names(drafts, i, id) <==> id == ids[i]
    {
      NamesOnce(drafts, i, id);
    }
    forall d
      ensures d in ids <==> exists j :: Names(drafts, j, d)
    {
      if d in ids {
        var j: nat :| j < |ids| && ids[j] == d;
        assert Names(drafts, j, d);
      }
    }
    if !Distinct(ids) {
      var i: nat, j: nat :| i < j < |ids| && ids[i] == ids[j];
      assert Names(drafts, i, ids[i]) && Names(drafts, j, ids[i]);
    }
  }

  lemma StepOfDraft(drafts: seq<Draft>, i: nat)
    requires i < |drafts|
    ensures StepsFrom(drafts)[i] in StepsFrom(drafts) && StepsFrom(drafts)[i].cost == drafts[i].cost.GetOr(1.0)
    ensures forall d :: d in StepsFrom(drafts)[i].dependsOn <==> d in drafts[i].dependsOn
  {
    DedupeMentions(drafts[i].dependsOn);
  }

  lemma DraftOfStep(drafts: seq<Draft>, s: Step) returns (i: nat)
    requires s in StepsFrom(drafts)
    ensures i < |drafts| && StepsFrom(drafts)[i] == s
  {
    i :| i < |drafts| && StepsFrom(drafts)[i] == s;
  }

  lemma DraftDependencies(drafts: seq<Draft>)
    ensures (forall s, d :: s in StepsFrom(drafts) && d in s.dependsOn ==> d in Ids(StepsFrom(drafts))) <==> DependenciesNamed(drafts)
  {
    DraftIds(drafts);
    if DependenciesNamed(drafts) {
      forall s, d | s in StepsFrom(drafts) && d in s.dependsOn
        ensures d in Ids(StepsFrom(drafts))
      {
        var i := DraftOfStep(drafts, s);
        StepOfDraft(drafts, i);
      }
    } else {
      var i: nat, d :| i < |drafts| && d in drafts[i].dependsOn && !exists j :: Names(drafts, j, d);
      StepOfDraft(drafts, i);
      assert d in StepsFrom(drafts)[i].dependsOn && d !in Ids(StepsFrom(drafts));
    }
  }

  lemma DraftCosts(drafts: seq<Draft>)
    ensures (forall s :: s in StepsFrom(drafts) ==> s.cost >= 0.0) <==> CostsAllowed(drafts)
  {
    if CostsAllowed(drafts) {
      forall s | s in StepsFrom(drafts)
        ensures s.cost >= 0.0
      {
        var i := DraftOfStep(drafts, s);
        StepOfDraft(drafts, i);
      }
    } else {
      var i: nat :| i < |drafts| && drafts[i].cost.Some? && drafts[i].cost.value < 0.0;
      StepOfDraft(drafts, i);
    }
  }

  /** `compile` accepts exactly the drafts that make a plan. */
  lemma {:induction false} AcceptableIff(drafts: seq<Draft>, maxSteps: nat)
    ensures Acceptable(drafts, maxSteps) <==> WellFormed(drafts, maxSteps) && !HasCycle(GraphOf(StepsFrom(drafts)))
  {
    DraftIds(drafts);
    DraftDependencies(drafts);
    DraftCosts(drafts);
    if Distinct(Ids(StepsFrom(drafts))) { DraftCycles(drafts); }
  }

  /** The plan that `compile` makes of drafts is theirs. */
  lemma {:induction false} CompiledFromDrafts(drafts: seq<Draft>)
    ensures CompiledFrom(drafts, Plan(PlanReady, MarkReady(StepsFrom(drafts))))
  {
    var steps := StepsFrom(drafts);
    assert CompletedIds(steps) == {};
    forall i | 0 <= i < |drafts|
      ensures FromDraft(drafts, i, MarkReady(steps)[i])
    {
      NamesOnce(drafts, i, steps[i].id);
      DedupeMentions(drafts[i].dependsOn);
      if drafts[i].dependsOn != [] { assert drafts[i].dependsOn[0] in steps[i].dependsOn; }
    }
  }

  /** The dependency structure of an accepted plan. */
  ghost predicate Accepted(steps: seq<Step>) {
    && Distinct(Ids(steps))
    && (forall s :: s in steps ==> s.cost >= 0.0)
    && Closed(GraphOf(steps)) && !HasCycle(GraphOf(steps))
  }

  // What an update makes of a plan.

  /** The status of step `k` before steps are marked ready. */
  function Given(p: Plan, i: nat, status: StepStatus, k: nat): StepStatus
    requires k < |p.steps|
  {
    if k == i then status else p.steps[k].status
  }

  ghost predicate SomeGiven(p: Plan, i: nat, status: StepStatus, among: set<StepStatus>) {
    exists k :: 0 <= k < |p.steps| && Given(p, i, status, k) in among
  }

  ghost predicate GivenCompleted(p: Plan, i: nat, status: StepStatus, d: Id) {
    exists k :: 0 <= k < |p.steps| && p.steps[k].id == d && Given(p, i, status, k) == Completed
  }

  /** Step `i` gets the status; pending steps whose dependencies are all completed then become ready; nothing else changes. */
  ghost predicate StepUpdated(p: Plan, i: nat, status: StepStatus, q: Plan, k: nat)
    requires k < |p.steps| == |q.steps|
  {
    q.steps[k] == p.steps[k].(status :=
      if Given(p, i, status, k) == Pending && forall d :: d in p.steps[k].dependsOn ==> GivenCompleted(p, i, status, d) then Ready
      else Given(p, i, status, k))
  }

  /** Failed if some step is, completed if all are or are skipped, executing if one runs or is completed; a cancelled plan stays so. */
  ghost predicate StatusUpdated(p: Plan, i: nat, status: StepStatus, q: Plan) {
    if p.status == PlanCancelled then q.status == PlanCancelled
    else
      && (q.status == PlanFailed <==> SomeGiven(p, i, status, {Failed}))
      && (q.status == PlanCompleted <==> !SomeGiven(p, i, status, {Pending, Ready, Running, Failed}))
      && (q.status == PlanExecuting <==>
           !SomeGiven(p, i, status, {Failed}) && SomeGiven(p, i, status, {Pending, Ready, Running}) && SomeGiven(p, i, status, {Running, Completed}))
      && q.status != PlanCancelled
  }

  ghost predicate IsUpdate(p: Plan, i: nat, status: StepStatus, q: Plan) {
    && |q.steps| == |p.steps| && (forall k :: 0 <= k < |p.steps| ==> StepUpdated(p, i, status, q, k))
    && StatusUpdated(p, i, status, q)
  }

  lemma {:induction false} UpdatedIsUpdate(p: Plan, i: nat, status: StepStatus)
    requires i < |p.steps|
    ensures IsUpdate(p, i, status, Updated(p, i, status))
  {
    var steps, q := p.steps[i := p.steps[i].(status := status)], Updated(p, i, status);
    forall k | 0 <= k < |steps|
      ensures steps[k] in steps && steps[k] == p.steps[k].(status := Given(p, i, status, k))
    {
    }
    forall d
      ensures d in CompletedIds(steps) <==> GivenCompleted(p, i, status, d)
    {
      CompletedMeans(steps, d);
    }
    forall k | 0 <= k < |steps|
      ensures StepUpdated(p, i, status, q, k)
    {
    }
    StatusMeans(p, i, status, steps);
  }

  lemma CompletedMeans(steps: seq<Step>, d: Id)
    ensures d in CompletedIds(steps) <==> exists k :: 0 <= k < |steps| && steps[k].id == d && steps[k].status == Completed
  {
    if k :| 0 <= k < |steps| && steps[k].id == d && steps[k].status == Completed { assert steps[k] in steps; }
  }

  lemma StatusMeans(p: Plan, i: nat, status: StepStatus, steps: seq<Step>)
    requires |steps| == |p.steps| && forall k :: 0 <= k < |steps| ==> steps[k].status == Given(p, i, status, k)
    ensures StatusUpdated(p, i, status, Plan(DeriveStatus(steps, p.status), MarkReady(steps)))
  {
    forall among: set<StepStatus>
      ensures SomeGiven(p, i, status, among) <==> exists s :: s in steps && s.status in among
    {
      if k :| 0 <= k < |p.steps| && Given(p, i, status, k) in among { assert steps[k] in steps; }
      if s :| s in steps && s.status in among {
        var k :| 0 <= k < |steps| && steps[k] == s;
        assert Given(p, i, status, k) in among;
      }
    }
  }

  /** `steps.findIndex((step) => step.id === stepId)`, with the length for -1. */
  method FindStep(steps: seq<Step>, stepId: Id) returns (index: nat)
    ensures index <= |steps| && (index < |steps| ==> steps[index].id == stepId && steps[index] in steps)
    ensures forall j :: 0 <= j < index ==> steps[j].id != stepId
  {
    index := 0;
    while index < |steps| && steps[index].id != stepId
      invariant index <= |steps|
      invariant forall j :: 0 <= j < index ==> steps[j].id != stepId
    {
      index := index + 1;
    }
  }

  lemma NoSuchStep(steps: seq<Step>, stepId: Id)
    requires forall j :: 0 <= j < |steps| ==> steps[j].id != stepId
    ensures forall s :: s in steps ==> s.id != stepId
  {
  }

  lemma UpdatedAccepted(plan: Plan, index: nat, status: StepStatus)
    requires index < |plan.steps| && Accepted(plan.steps)
    ensures Accepted(Updated(plan, index, status).steps)
  {
    SameGraph(plan.steps, Updated(plan, index, status).steps);
  }

  class PlanningEngine {
    var plans: map<string, Plan>
    const maxSteps: nat

    constructor (maxSteps: nat)
      requires maxSteps >= 1
      ensures Valid() && plans == map[] && this.maxSteps == maxSteps
    {
      plans := map[];
      this.maxSteps := maxSteps;
    }

    /** Every stored plan has an acyclic dependency relation among its own steps. */
    ghost predicate Valid()
      reads this
    {
      forall id :: id in plans ==> Accepted(plans[id].steps)
    }

    method Compile(goal: string, drafts: seq<Draft>, planId: string) returns (r: Result<Plan>)
      requires Valid() && planId !in plans
      modifies this`plans
      ensures Valid()
      ensures r.Ok? <==> !Blank(goal) && Acceptable(drafts, maxSteps)
      ensures r.Ok? ==> CompiledFrom(drafts, r.value)
      ensures r.Ok? ==> WellFormed(drafts, maxSteps) && r.value == Plan(PlanReady, MarkReady(StepsFrom(drafts))) && Accepted(r.value.steps)
      ensures r.Ok? ==> plans == old(plans)[planId := r.value]
      ensures r.Err? ==> plans == old(plans)
    {
      AcceptableIff(drafts, maxSteps);
      if Blank(goal) || !WellFormed(drafts, maxSteps) { return Err(InvalidArgument); }
      var steps := StepsFrom(drafts);
      var thrown, _ := CycleCheck.AssertAcyclic(GraphOf(steps), Ids(steps));
      if thrown.Some? { return Err(CycleFound(thrown.value)); }
      var plan := Plan(PlanReady, MarkReady(steps));
      CompiledAccepted(drafts, maxSteps);
      CompiledFromDrafts(drafts);
      plans := plans[planId := plan];
      return Ok(plan);
    }

    method UpdateStep(planId: string, stepId: Id, status: StepStatus) returns (r: Result<Plan>)
      requires Valid()
      modifies this`plans
      ensures Valid()
      ensures r.Ok? <==> planId in old(plans) && exists s :: s in old(plans)[planId].steps && s.id == stepId
      ensures r.Err? ==> r.error == NotFound && plans == old(plans)
      ensures r.Ok? ==>
        exists i :: 0 <= i < |old(plans)[planId].steps| && old(plans)[planId].steps[i].id == stepId
          && (forall j :: 0 <= j < i ==> old(plans)[planId].steps[j].id != stepId)
          && IsUpdate(old(plans)[planId], i, status, r.value)
          && r.value == Updated(old(plans)[planId], i, status) && plans == old(plans)[planId := r.value]
    {
      if planId !in plans { return Err(NotFound); }
      var plan := plans[planId];
      var index := FindStep(plan.steps, stepId);
      if index == |plan.steps| {
        NoSuchStep(plan.steps, stepId);
        return Err(NotFound);
      }
      var updated := Updated(plan, index, status);
      UpdatedAccepted(plan, index, status);
      UpdatedIsUpdate(plan, index, status);
      plans := plans[planId := updated];
      return Ok(updated);
    }

    /** On accepted plans `levels` never throws; each step's level is its depth. */
    method LevelsOf(planId: string) returns (r: Result<seq<seq<Id>>>)
      requires Valid()
      ensures r.Ok? <==> planId in plans
      ensures r.Ok? ==> Levels.IsLevels(GraphOf(plans[planId].steps), Ids(plans[planId].steps), r.value)
    {
      if planId !in plans { return Err(NotFound); }
      var steps := plans[planId].steps;
      r := Levels.Compute(GraphOf(steps), Ids(steps));
    }

    method CriticalPathOf(planId: string) returns (r: Result<CriticalPath.Best>)
      requires Valid()
      ensures r.Ok? <==> planId in plans
      ensures r.Ok? ==> CostsPriced(plans[planId].steps) && CriticalPath.IsCritical(
                          GraphOf(plans[planId].steps), CostsOf(plans[planId].steps), r.value)
    {
      if planId !in plans { return Err(NotFound); }
      var steps := plans[planId].steps;
      ghost var order := TopologicalOrderExists(GraphOf(steps), []);
      var best := CriticalPath.Compute(GraphOf(steps), Ids(steps), CostsOf(steps), order);
      return Ok(best);
    }
  }

  ghost predicate CostsPriced(steps: seq<Step>) {
    Distinct(Ids(steps)) && CriticalPath.Priced(GraphOf(steps), CostsOf(steps))
  }

  lemma CompiledAccepted(drafts: seq<Draft>, maxSteps: nat)
    requires WellFormed(drafts, maxSteps) && !HasCycle(GraphOf(StepsFrom(drafts)))
    ensures Accepted(MarkReady(StepsFrom(drafts))) && Accepted(StepsFrom(drafts))
  {
    var steps := StepsFrom(drafts);
    KnownDependenciesClose(steps);
    SameGraph(steps, MarkReady(steps));
  }

  lemma KnownDependenciesClose(steps: seq<Step>)
    requires Distinct(Ids(steps))
    requires forall s, d :: s in steps && d in s.dependsOn ==> d in Ids(steps)
    ensures Closed(GraphOf(steps))
  {
    var g := GraphOf(steps);
    forall v, d | v in g && d in g[v]
      ensures d in g
    {
      var i :| 0 <= i < |steps| && steps[i].id == v;
      assert steps[i] in steps && d in Ids(steps);
    }
  }

  /** Statuses do not matter to the dependency structure. */
  lemma SameGraph(a: seq<Step>, b: seq<Step>)
    requires |a| == |b| && Distinct(Ids(a))
    requires forall i :: 0 <= i < |a| ==> a[i].(status := Pending) == b[i].(status := Pending)
    ensures Ids(a) == Ids(b) && GraphOf(a) == GraphOf(b)
    ensures Accepted(a) ==> Accepted(b)
  {
    assert Ids(a) == Ids(b);
    assert GraphOf(a) == GraphOf(b);
    forall s | s in b && Accepted(a)
      ensures s.cost >= 0.0
    {
      var i :| 0 <= i < |b| && b[i] == s;
      assert a[i] in a;
    }
  }
}
