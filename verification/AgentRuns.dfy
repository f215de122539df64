/** Concurrent agent runs with delegation (`MultiAgentRuntime`), as a step machine over the registry. */
module AgentRuns {
  import opened Prelude
  import opened AgentRegistry

  datatype Progress = Working | Succeeded | Failed

  /** A run that has acquired its agent; `parent` is the run that delegated to it. */
  datatype Run = Run(agent: Id, depth: nat, parent: Option<nat>, progress: Progress)

  datatype State = State(agents: Agents, runs: seq<Run>)

  datatype Event =
    | Register(id: Id, capabilities: seq<Capability>, maxConcurrency: Option<int>)
    | Dispatch(required: seq<Capability>, choice: Option<Id>)
    | RunNamed(id: Id)
    | Delegate(from: nat, required: seq<Capability>, choice: Option<Id>)
    | Settle(k: nat, success: bool) // the result, a thrown error or the timeout, whichever comes first
    | Disable(id: Id)
    | Enable(id: Id)

  ghost predicate Chooses(agents: Agents, required: seq<Capability>, choice: Option<Id>) {
    if choice.Some? then IsSelected(agents, required, choice.value)
    else forall id :: id in agents ==> !Candidate(agents[id], required)
  }

  /** A run keeps its services, so it can delegate even after it has settled. */
  ghost predicate CanHappen(s: State, e: Event) {
    match e
    case Dispatch(required, choice) => Chooses(s.agents, required, choice)
    case Delegate(from, required, choice) => from < |s.runs| && Chooses(s.agents, required, choice)
    case Settle(k, _) => k < |s.runs| && s.runs[k].progress == Working
    case _ => true
  }

  predicate Starts(s: State, id: Id, depth: nat, maxDepth: nat) {
    depth <= maxDepth && id in s.agents && s.agents[id].status != Disabled && s.agents[id].active < Limit(s.agents[id])
  }

  /** `runOn` up to its first `await` beyond acquiring; it throws and changes nothing when the run cannot start. */
  function RunOn(s: State, id: Id, depth: nat, parent: Option<nat>, maxDepth: nat): State {
    if !Starts(s, id, depth, maxDepth) then s
    else State(s.agents[id := Acquired(s.agents[id])], s.runs + [Run(id, depth, parent, Working)])
  }

  function Update(s: State, id: Id, agent: Agent): State {
    s.(agents := s.agents[id := agent])
  }

  ghost function Next(s: State, e: Event, maxDepth: nat): State
    requires CanHappen(s, e)
  {
    match e
    case Register(id, capabilities, maxConcurrency) =>
      if id in s.agents || !ValidManifest(id, capabilities, maxConcurrency) then s
      else Update(s, id, Agent(capabilities, maxConcurrency, Idle, 0, 0, 0))
    case Dispatch(_, choice) => if choice.None? then s else RunOn(s, choice.value, 0, None, maxDepth)
    case RunNamed(id) => RunOn(s, id, 0, None, maxDepth)
    case Delegate(from, _, choice) =>
      if choice.None? then s else RunOn(s, choice.value, s.runs[from].depth + 1, Some(from), maxDepth)
    case Settle(k, success) =>
      var run := s.runs[k];
      var settled := s.(runs := s.runs[k := run.(progress := if success then Succeeded else Failed)]);
      if run.agent in s.agents then Update(settled, run.agent, Released(s.agents[run.agent], success)) else settled
    case Disable(id) => if id in s.agents then Update(s, id, s.agents[id].(status := Disabled)) else s
    case Enable(id) => if id in s.agents then Update(s, id, Enabled(s.agents[id])) else s
  }

  function Count(runs: seq<Run>, id: Id, progress: Progress): nat {
    if runs == [] then 0
    else
      Count(runs[..|runs| - 1], id, progress) + One(runs[|runs| - 1], id, progress)
  }

  function One(run: Run, id: Id, progress: Progress): nat {
    if run.agent == id && run.progress == progress then 1 else 0
  }

  lemma {:induction false} CountUpdate(runs: seq<Run>, k: nat, run: Run, id: Id, progress: Progress)
    requires k < |runs|
    ensures Count(runs[k := run], id, progress) == Count(runs, id, progress) - One(runs[k], id, progress) + One(run, id, progress)
  {
    var last := |runs| - 1;
    if k < last {
      CountUpdate(runs[..last], k, run, id, progress);
      assert runs[k := run][..last] == runs[..last][k := run];
    } else {
      assert runs[k := run][..last] == runs[..last];
    }
  }

  lemma CountAppend(runs: seq<Run>, run: Run, id: Id, progress: Progress)
    ensures Count(runs + [run], id, progress) == Count(runs, id, progress) + One(run, id, progress)
  {
    assert (runs + [run])[..|runs|] == runs;
  }

  /** The registry's figures for one agent are the numbers of its runs. */
  predicate Accounted(s: State, id: Id)
    requires id in s.agents
  {
    var agent := s.agents[id];
    && agent.active == Count(s.runs, id, Working) <= Limit(agent)
    && agent.completed == Count(s.runs, id, Succeeded)
    && agent.failed == Count(s.runs, id, Failed)
    && (agent.status == Disabled || agent.status == if agent.active > 0 then Busy else Idle)
  }

  predicate WellNested(runs: seq<Run>, k: nat, maxDepth: nat)
    requires k < |runs|
  {
    && runs[k].depth <= maxDepth
    && if runs[k].parent.None? then runs[k].depth == 0
       else runs[k].parent.value < k && runs[k].depth == runs[runs[k].parent.value].depth + 1
  }

  ghost predicate Invariant(s: State, maxDepth: nat) {
    && (forall id {:trigger Accounted(s, id)} :: id in s.agents ==> Accounted(s, id))
    && (forall k {:trigger WellNested(s.runs, k, maxDepth)} :: 0 <= k < |s.runs| ==> WellNested(s.runs, k, maxDepth))
    && (forall k :: 0 <= k < |s.runs| ==> s.runs[k].agent in s.agents)
  }

  lemma {:induction false} CountNone(runs: seq<Run>, id: Id, progress: Progress)
    requires forall k :: 0 <= k < |runs| ==> runs[k].agent != id
    ensures Count(runs, id, progress) == 0
  {
    if runs == [] {
    } else {
      CountNone(runs[..|runs| - 1], id, progress);
    }
  }

  lemma NestingStays(s: State, t: State, maxDepth: nat)
    requires Invariant(s, maxDepth) && |s.runs| == |t.runs| && s.agents.Keys <= t.agents.Keys
    requires forall k :: 0 <= k < |s.runs| ==> t.runs[k] == s.runs[k].(progress := t.runs[k].progress)
    ensures forall k {:trigger WellNested(t.runs, k, maxDepth)} :: 0 <= k < |t.runs| ==> WellNested(t.runs, k, maxDepth)
    ensures forall k :: 0 <= k < |t.runs| ==> t.runs[k].agent in t.agents
  {
    forall k | 0 <= k < |t.runs|
      ensures WellNested(t.runs, k, maxDepth)
    {
      assert WellNested(s.runs, k, maxDepth);
    }
  }

  /** Figures change only for the agent concerned. */
  lemma RecordKeeps(s: State, id: Id, agent: Agent, maxDepth: nat)
    requires Invariant(s, maxDepth)
    requires Accounted(Update(s, id, agent), id)
    ensures Invariant(Update(s, id, agent), maxDepth)
  {
    var t := Update(s, id, agent);
    forall other | other in t.agents
      ensures Accounted(t, other)
    {
      assert other != id ==> Accounted(s, other);
    }
    NestingStays(s, t, maxDepth);
  }

  lemma RunOnKeeps(s: State, id: Id, depth: nat, parent: Option<nat>, maxDepth: nat)
    requires Invariant(s, maxDepth)
    requires if parent.None? then depth == 0 else parent.value < |s.runs| && depth == s.runs[parent.value].depth + 1
    ensures Invariant(RunOn(s, id, depth, parent, maxDepth), maxDepth)
  {
    if Starts(s, id, depth, maxDepth) {
      var t := RunOn(s, id, depth, parent, maxDepth);
      var run := Run(id, depth, parent, Working);
      forall other | other in t.agents
        ensures Accounted(t, other)
      {
        assert Accounted(s, other);
        CountAppend(s.runs, run, other, Working);
        CountAppend(s.runs, run, other, Succeeded);
        CountAppend(s.runs, run, other, Failed);
      }
      forall k | 0 <= k < |t.runs|
        ensures WellNested(t.runs, k, maxDepth)
      {
        assert k < |s.runs| ==> WellNested(s.runs, k, maxDepth);
      }
    }
  }

  lemma SettleKeeps(s: State, k: nat, success: bool, maxDepth: nat)
    requires Invariant(s, maxDepth) && CanHappen(s, Settle(k, success))
    ensures Invariant(Next(s, Settle(k, success), maxDepth), maxDepth)
  {
    var t := Next(s, Settle(k, success), maxDepth);
    assert Accounted(s, s.runs[k].agent);
    forall other | other in t.agents
      ensures Accounted(t, other)
    {
      SettleAccounts(s, k, success, maxDepth, other);
    }
    NestingStays(s, t, maxDepth);
  }

  lemma SettleAccounts(s: State, k: nat, success: bool, maxDepth: nat, other: Id)
    requires CanHappen(s, Settle(k, success)) && s.runs[k].agent in s.agents && other in s.agents
    requires Accounted(s, s.runs[k].agent) && Accounted(s, other)
    ensures Accounted(Next(s, Settle(k, success), maxDepth), other)
  {
    var run := Next(s, Settle(k, success), maxDepth).runs[k];
    CountUpdate(s.runs, k, run, other, Working);
    CountUpdate(s.runs, k, run, other, Succeeded);
    CountUpdate(s.runs, k, run, other, Failed);
  }

  lemma RegisterKeeps(s: State, id: Id, agent: Agent, maxDepth: nat)
    requires Invariant(s, maxDepth) && id !in s.agents
    requires agent.active == 0 && agent.completed == 0 && agent.failed == 0 && agent.status == Idle && Limit(agent) >= 1
    ensures Invariant(Update(s, id, agent), maxDepth)
  {
    CountNone(s.runs, id, Working);
    CountNone(s.runs, id, Succeeded);
    CountNone(s.runs, id, Failed);
    RecordKeeps(s, id, agent, maxDepth);
  }

  lemma StatusKeeps(s: State, e: Event, maxDepth: nat)
    requires Invariant(s, maxDepth) && (e.Disable? || e.Enable?)
    ensures Invariant(Next(s, e, maxDepth), maxDepth)
  {
    if e.id in s.agents {
      assert Accounted(s, e.id);
      RecordKeeps(s, e.id, if e.Disable? then s.agents[e.id].(status := Disabled) else Enabled(s.agents[e.id]), maxDepth);
    }
  }

  lemma NextKeeps(s: State, e: Event, maxDepth: nat)
    requires Invariant(s, maxDepth) && CanHappen(s, e)
    ensures Invariant(Next(s, e, maxDepth), maxDepth)
  {
    match e {
      case Register(id, capabilities, maxConcurrency) =>
        if id !in s.agents && ValidManifest(id, capabilities, maxConcurrency) {
          RegisterKeeps(s, id, Agent(capabilities, maxConcurrency, Idle, 0, 0, 0), maxDepth);
        }
      case Dispatch(_, choice) => if choice.Some? { RunOnKeeps(s, choice.value, 0, None, maxDepth); }
      case RunNamed(id) => RunOnKeeps(s, id, 0, None, maxDepth);
      case Delegate(from, _, choice) =>
        if choice.Some? { RunOnKeeps(s, choice.value, s.runs[from].depth + 1, Some(from), maxDepth); }
      case Settle(k, success) => SettleKeeps(s, k, success, maxDepth);
      case Disable(_) => StatusKeeps(s, e, maxDepth);
      case Enable(_) => StatusKeeps(s, e, maxDepth);
    }
  }

  ghost predicate StepsTo(s: State, t: State, maxDepth: nat) {
    exists e :: CanHappen(s, e) && t == Next(s, e, maxDepth)
  }

  ghost predicate IsHistory(states: seq<State>, maxDepth: nat) {
    && |states| >= 1 && states[0] == State(map[], [])
    && forall i :: 0 <= i < |states| - 1 ==> StepsTo(states[i], states[i + 1], maxDepth)
  }

  /** Every interleaving: what each agent's record counts is exactly its working, succeeded and failed runs. */
  lemma {:induction false} EveryHistoryAccounts(states: seq<State>, maxDepth: nat, n: nat)
    requires IsHistory(states, maxDepth) && n < |states|
    ensures Invariant(states[n], maxDepth)
  {
    if n == 0 {
    } else {
      EveryHistoryAccounts(states, maxDepth, n - 1);
      assert StepsTo(states[n - 1], states[n - 1 + 1], maxDepth);
      var e :| CanHappen(states[n - 1], e) && states[n] == Next(states[n - 1], e, maxDepth);
      NextKeeps(states[n - 1], e, maxDepth);
    }
  }

  /** How many runs have acquired the agent. */
  function Acquires(runs: seq<Run>, id: Id): nat {
    if runs == [] then 0
    else Acquires(runs[..|runs| - 1], id) + if runs[|runs| - 1].agent == id then 1 else 0
  }

  lemma {:induction false} AcquiresByProgress(runs: seq<Run>, id: Id)
    ensures Acquires(runs, id) == Count(runs, id, Working) + Count(runs, id, Succeeded) + Count(runs, id, Failed)
  {
    if runs == [] {
    } else {
      AcquiresByProgress(runs[..|runs| - 1], id);
    }
  }

  /** Every acquire is either still held or has been released exactly once, and within the agent's limit. */
  lemma {:induction false} AcquiresAreConserved(s: State, maxDepth: nat, id: Id)
    requires Invariant(s, maxDepth) && id in s.agents
    ensures var agent := s.agents[id];
      agent.active + agent.completed + agent.failed == Acquires(s.runs, id) && 0 <= agent.active <= Limit(agent)
  {
    assert Accounted(s, id);
    AcquiresByProgress(s.runs, id);
  }

  /** A run is released at most once: only its own settling changes it, and a settled run never changes again. */
  lemma {:induction false} ReleasedOnce(states: seq<State>, maxDepth: nat, from: nat, end: nat, k: nat)
    requires IsHistory(states, maxDepth) && from <= end < |states|
    requires k < |states[from].runs| && states[from].runs[k].progress != Working
    ensures k < |states[end].runs| && states[end].runs[k] == states[from].runs[k]
  {
    if from == end {
    } else {
      ReleasedOnce(states, maxDepth, from, end - 1, k);
      assert StepsTo(states[end - 1], states[end - 1 + 1], maxDepth);
      var e :| CanHappen(states[end - 1], e) && states[end] == Next(states[end - 1], e, maxDepth);
    }
  }

  /** An agent that `select` chose never fails to be acquired; only the delegation depth can stop the run. */
  lemma {:induction false} SelectedAgentStarts(s: State, required: seq<Capability>, choice: Option<Id>, depth: nat, maxDepth: nat)
    requires Chooses(s.agents, required, choice) && choice.Some?
    ensures Starts(s, choice.value, depth, maxDepth) <==> depth <= maxDepth
    ensures Offers(s.agents[choice.value], required)
  {
    assert IsSelected(s.agents, required, choice.value);
  }

  /** A run, the run that delegated to it, and so on up to the one dispatched from outside. */
  ghost function Lineage(runs: seq<Run>, k: nat, maxDepth: nat): (line: seq<nat>)
    requires k < |runs| && forall j {:trigger WellNested(runs, j, maxDepth)} :: 0 <= j < |runs| ==> WellNested(runs, j, maxDepth)
  {
    assert WellNested(runs, k, maxDepth);
    if runs[k].parent.None? then [k] else [k] + Lineage(runs, runs[k].parent.value, maxDepth)
  }

  /** Nested runs never exceed the delegation limit plus one. */
  lemma {:induction false} NestingBounded(s: State, maxDepth: nat, k: nat)
    requires Invariant(s, maxDepth) && k < |s.runs|
    ensures |Lineage(s.runs, k, maxDepth)| == s.runs[k].depth + 1 <= maxDepth + 1
  {
    assert WellNested(s.runs, k, maxDepth);
    if s.runs[k].parent.Some? {
      NestingBounded(s, maxDepth, s.runs[k].parent.value);
    }
  }

  /** Once every run has settled, no agent is left busy. */
  lemma {:induction false} QuiescentMeansIdle(s: State, maxDepth: nat, id: Id)
    requires Invariant(s, maxDepth) && id in s.agents && forall k :: 0 <= k < |s.runs| ==> s.runs[k].progress != Working
    ensures s.agents[id].active == 0 && s.agents[id].status != Busy
  {
    assert Accounted(s, id);
    NoneWorking(s.runs, id);
  }

  lemma {:induction false} NoneWorking(runs: seq<Run>, id: Id)
    requires forall k :: 0 <= k < |runs| ==> runs[k].progress != Working
    ensures Count(runs, id, Working) == 0
  {
    if runs == [] {
    } else {
      NoneWorking(runs[..|runs| - 1], id);
    }
  }
}
