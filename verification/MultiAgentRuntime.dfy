/** `MultiAgentRuntime` (`multi-agent-runtime.ts`): dispatch, delegation and settling of runs over a shared registry. */
module MultiAgentRuntime {
  import opened Prelude
  import opened AgentRegistry
  import opened AgentRuns

  predicate Available(agents: Agents, required: seq<Capability>) {
    exists id :: id in agents && Candidate(agents[id], required)
  }

  class MultiAgentRuntime {
    const registry: AgentRegistry
    const maxDelegationDepth: nat
    /** Every run that acquired an agent, in order; in the source each is a pending or settled promise. */
    var runs: seq<Run>

    constructor (registry: AgentRegistry, maxDelegationDepth: nat)
      requires maxDelegationDepth >= 1
      ensures this.registry == registry && this.maxDelegationDepth == maxDelegationDepth && runs == []
    {
      this.registry, this.maxDelegationDepth, runs := registry, maxDelegationDepth, [];
    }

    function View(): State
      reads this, registry
    {
      State(registry.agents, runs)
    }

    /** `runOn` up to the point where the agent works; returns the run's number. */
    method RunOn(id: Id, depth: nat, parent: Option<nat>) returns (r: Result<nat>)
      modifies this`runs, registry
      ensures View() == AgentRuns.RunOn(old(View()), id, depth, parent, maxDelegationDepth)
      ensures r.Ok? <==> Starts(old(View()), id, depth, maxDelegationDepth)
      ensures r.Ok? ==> r.value == |old(runs)|
      ensures runs == if r.Ok? then old(runs) + [Run(id, depth, parent, Working)] else old(runs)
      ensures r.Ok? <==> depth <= maxDelegationDepth && id in old(registry.agents) && Qualifies(old(registry.agents)[id], [])
    {
      if depth > maxDelegationDepth { return Err(InvalidState); }
      if id !in registry.agents { return Err(NotFound); }
      if registry.agents[id].status == Disabled { return Err(InvalidState); }
      var acquired := registry.Acquire(id);
      if acquired.Err? { return Err(acquired.error); }
      runs := runs + [Run(id, depth, parent, Working)];
      return Ok(|runs| - 1);
    }

    method Dispatch(required: seq<Capability>) returns (r: Result<nat>, ghost choice: Option<Id>)
      requires Collates(registry.before)
      modifies this`runs, registry
      ensures CanHappen(old(View()), AgentRuns.Dispatch(required, choice))
      ensures View() == Next(old(View()), AgentRuns.Dispatch(required, choice), maxDelegationDepth)
      ensures r.Ok? <==> Available(old(registry.agents), required)
      ensures r.Ok? ==> choice.Some? && choice.value in old(registry.agents) && Qualifies(old(registry.agents)[choice.value], required)
      ensures runs == if r.Ok? then old(runs) + [Run(choice.value, 0, None, Working)] else old(runs)
    {
      var selected := registry.Select(required);
      choice := selected;
      if selected.None? { return Err(InvalidState), choice; }
      r := RunOn(selected.value, 0, None);
    }

    /** The `delegate` closure that run `from` was given. */
    method Delegate(from: nat, required: seq<Capability>) returns (r: Result<nat>, ghost choice: Option<Id>)
      requires Collates(registry.before) && from < |runs|
      modifies this`runs, registry
      ensures CanHappen(old(View()), AgentRuns.Delegate(from, required, choice))
      ensures View() == Next(old(View()), AgentRuns.Delegate(from, required, choice), maxDelegationDepth)
      ensures r.Ok? <==> old(runs)[from].depth < maxDelegationDepth && Available(old(registry.agents), required)
      ensures r.Ok? ==> choice.Some? && choice.value in old(registry.agents) && Qualifies(old(registry.agents)[choice.value], required)
      ensures runs == if r.Ok? then old(runs) + [Run(choice.value, old(runs)[from].depth + 1, Some(from), Working)] else old(runs)
    {
      var selected := registry.Select(required);
      choice := selected;
      if selected.None? { return Err(InvalidState), choice; }
      r := RunOn(selected.value, runs[from].depth + 1, Some(from));
    }

    /** What follows the race between the agent and its timeout: one release, whichever way it went. */
    method Settle(k: nat, success: bool)
      requires k < |runs| && runs[k].progress == Working
      modifies this`runs, registry
      ensures View() == Next(old(View()), AgentRuns.Settle(k, success), maxDelegationDepth)
      ensures runs == old(runs)[k := old(runs)[k].(progress := if success then Succeeded else Failed)]
      ensures old(runs)[k].agent in old(registry.agents) ==>
        old(runs)[k].agent in registry.agents && ReleasedAs(old(registry.agents)[old(runs)[k].agent], success, registry.agents[old(runs)[k].agent])
    {
      var run := runs[k];
      var _ := registry.Release(run.agent, success);
      runs := runs[k := run.(progress := if success then Succeeded else Failed)];
    }
  }
}
