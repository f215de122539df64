/** Capability matching and concurrency accounting for agents (`agent-registry.ts`). */
module AgentRegistry {
  import opened Prelude

  type Id = string
  type Capability = string

  datatype Status = Idle | Busy | Disabled

  datatype Agent = Agent(capabilities: seq<Capability>, maxConcurrency: Option<int>,
                         status: Status, active: int, completed: nat, failed: nat)

  type Agents = map<Id, Agent>

  function Limit(agent: Agent): int {
    agent.maxConcurrency.GetOr(1)
  }

  predicate Offers(agent: Agent, required: seq<Capability>) {
    forall c :: c in required ==> c in agent.capabilities
  }

  /** What `select` filters for. */
  predicate Candidate(agent: Agent, required: seq<Capability>) {
    agent.status != Disabled && Offers(agent, required) && agent.active < Limit(agent)
  }

  /** Less loaded, or as loaded and more specialised. */
  predicate Preferred(a: Agent, b: Agent) {
    a.active < b.active || (a.active == b.active && |a.capabilities| <= |b.capabilities|)
  }

  /** In the manifest's own terms: not disabled, able to do all that is required, and below its limit, which is 1 unless given. */
  ghost predicate Qualifies(agent: Agent, required: seq<Capability>) {
    && agent.status != Disabled && (forall c :: c in required ==> c in agent.capabilities)
    && match agent.maxConcurrency case None => agent.active < 1 case Some(limit) => agent.active < limit
  }

  /** Less loaded than the other, else with fewer capabilities, else not behind it in the order of ids. */
  ghost predicate Beats(agents: Agents, before: Collation, a: Id, b: Id)
    requires a in agents && b in agents
  {
    var x, y := agents[a], agents[b];
    x.active < y.active || (x.active == y.active && (|x.capabilities| < |y.capabilities| || (|x.capabilities| == |y.capabilities| && before(a, b))))
  }

  ghost predicate IsSelected(agents: Agents, required: seq<Capability>, id: Id) {
    && id in agents && Candidate(agents[id], required)
    && forall other :: other in agents && Candidate(agents[other], required) ==> Preferred(agents[id], agents[other])
  }

  /** The comparator of `select`: load, then specialisation, then the order of ids. */
  predicate Precedes(agents: Agents, before: Collation, a: Id, b: Id)
    requires a in agents && b in agents
  {
    Preferred(agents[a], agents[b]) && (Preferred(agents[b], agents[a]) ==> before(a, b))
  }

  lemma PrecedesTransitive(agents: Agents, before: Collation, a: Id, b: Id, c: Id)
    requires Collates(before) && a in agents && b in agents && c in agents
    requires Precedes(agents, before, a, b) && Precedes(agents, before, b, c)
    ensures Precedes(agents, before, a, c)
  {
  }

  lemma {:induction false} BestExists(agents: Agents, before: Collation, among: set<Id>) returns (best: Id)
    requires Collates(before) && among != {} && forall id :: id in among ==> id in agents
    ensures best in among && forall other :: other in among ==> Precedes(agents, before, best, other)
  {
    var some :| some in among;
    best := some;
    assert before(some, some);
    if among != {some} {
      var rest := BestExists(agents, before, among - {some});
      if !Precedes(agents, before, some, rest) { best := rest; }
      forall other | other in among
        ensures Precedes(agents, before, best, other)
      {
        if other != some && Precedes(agents, before, some, rest) { PrecedesTransitive(agents, before, some, rest, other); }
      }
    }
  }

  predicate ValidManifest(id: Id, capabilities: seq<Capability>, maxConcurrency: Option<int>) {
    ValidName(id, 64) && capabilities != [] && (maxConcurrency.Some? ==> maxConcurrency.value >= 1)
  }

  function Acquired(agent: Agent): Agent {
    agent.(active := agent.active + 1, status := Busy)
  }

  function Released(agent: Agent, success: bool): Agent {
    var active := if agent.active - 1 > 0 then agent.active - 1 else 0;
    agent.(active := active,
           completed := if success then agent.completed + 1 else agent.completed,
           failed := if success then agent.failed else agent.failed + 1,
           status := if agent.status == Disabled then Disabled else if active > 0 then Busy else Idle)
  }

  /** One task less, but not below 0, and one result more; a disabled agent stays so, another is busy while it has tasks. */
  ghost predicate ReleasedAs(was: Agent, success: bool, agent: Agent) {
    && agent.capabilities == was.capabilities && agent.maxConcurrency == was.maxConcurrency
    && (if was.active >= 1 then agent.active == was.active - 1 else agent.active == 0)
    && (if success then agent.completed == was.completed + 1 && agent.failed == was.failed
        else agent.failed == was.failed + 1 && agent.completed == was.completed)
    && (agent.status == Disabled <==> was.status == Disabled)
    && (was.status != Disabled ==> (agent.status == Busy <==> agent.active > 0))
  }

  class AgentRegistry {
    /** The order of ids that breaks ties. */
    const before: Collation
    var agents: Agents

    constructor (before: Collation)
      ensures agents == map[] && this.before == before
    {
      agents, this.before := map[], before;
    }

    method Register(id: Id, capabilities: seq<Capability>, maxConcurrency: Option<int>) returns (r: Result<()>)
      modifies this
      ensures r == if id in old(agents) && ValidName(id, 64) && capabilities != [] then Err(Duplicate)
        else if !ValidManifest(id, capabilities, maxConcurrency) then Err(InvalidArgument) else Ok(())
      ensures agents == if r.Ok? then old(agents)[id := Agent(capabilities, maxConcurrency, Idle, 0, 0, 0)] else old(agents)
    {
      if !ValidName(id, 64) { return Err(InvalidArgument); }
      if capabilities == [] { return Err(InvalidArgument); }
      if id in agents { return Err(Duplicate); }
      if maxConcurrency.Some? && maxConcurrency.value < 1 { return Err(InvalidArgument); }
      agents := agents[id := Agent(capabilities, maxConcurrency, Idle, 0, 0, 0)];
      return Ok(());
    }

    /** `None` exactly when no agent qualifies; otherwise the first of the candidates in the comparator's order. */
    method Select(required: seq<Capability>) returns (choice: Option<Id>)
      requires Collates(before)
      ensures choice.Some? ==> IsSelected(agents, required, choice.value)
      ensures choice.Some? ==> forall other :: other in agents && Candidate(agents[other], required) ==> Precedes(agents, before, choice.value, other)
      ensures choice.None? ==> forall id :: id in agents ==> !Candidate(agents[id], required)
      ensures choice.Some? ==> choice.value in agents && Qualifies(agents[choice.value], required)
      ensures choice.Some? ==> forall other :: other in agents && Qualifies(agents[other], required) ==> Beats(agents, before, choice.value, other)
      ensures choice.None? ==> forall id :: id in agents ==> !Qualifies(agents[id], required)
    {
      assert forall id :: id in agents ==> (Qualifies(agents[id], required) <==> Candidate(agents[id], required));
      var candidates := set id | id in agents && Candidate(agents[id], required);
      if candidates == {} {
        assert forall id :: id in agents && Candidate(agents[id], required) ==> id in candidates;
        return None;
      }
      ghost var best := BestExists(agents, before, candidates);
      var id :| id in candidates && forall other :: other in candidates ==> Precedes(agents, before, id, other);
      forall other | other in agents && Candidate(agents[other], required)
        ensures Precedes(agents, before, id, other) && Preferred(agents[id], agents[other])
      {
        assert other in candidates;
      }
      return Some(id);
    }

    method Acquire(id: Id) returns (r: Result<()>)
      modifies this
      ensures r == if id !in old(agents) then Err(NotFound)
        else if old(agents)[id].active >= Limit(old(agents)[id]) then Err(InvalidArgument) else Ok(())
      ensures agents == if r.Ok? then old(agents)[id := Acquired(old(agents)[id])] else old(agents)
      ensures r.Ok? <==> id in old(agents) && match old(agents)[id].maxConcurrency case None => old(agents)[id].active < 1
                                                                                   case Some(limit) => old(agents)[id].active < limit
      ensures r.Ok? ==> agents == old(agents)[id := old(agents)[id].(active := old(agents)[id].active + 1, status := Busy)]
    {
      if id !in agents { return Err(NotFound); }
      var record := agents[id];
      if record.active >= Limit(record) { return Err(InvalidArgument); }
      agents := agents[id := record.(active := record.active + 1, status := Busy)];
      return Ok(());
    }

    method Release(id: Id, success: bool) returns (r: Result<()>)
      modifies this
      ensures r == if id in old(agents) then Ok(()) else Err(NotFound)
      ensures agents == if r.Ok? then old(agents)[id := Released(old(agents)[id], success)] else old(agents)
      ensures r.Ok? ==> agents.Keys == old(agents).Keys && ReleasedAs(old(agents)[id], success, agents[id])
    {
      if id !in agents { return Err(NotFound); }
      var record := agents[id];
      record := record.(active := if 0 < record.active - 1 then record.active - 1 else 0);
      record := if success then record.(completed := record.completed + 1) else record.(failed := record.failed + 1);
      if record.status != Disabled {
        record := record.(status := if record.active > 0 then Busy else Idle);
      }
      agents := agents[id := record];
      return Ok(());
    }

    method Disable(id: Id) returns (r: Result<()>)
      modifies this
      ensures r == if id in old(agents) then Ok(()) else Err(NotFound)
      ensures agents == if r.Ok? then old(agents)[id := old(agents)[id].(status := Disabled)] else old(agents)
    {
      if id !in agents { return Err(NotFound); }
      agents := agents[id := agents[id].(status := Disabled)];
      return Ok(());
    }

    method Enable(id: Id) returns (r: Result<()>)
      modifies this
      ensures r == if id in old(agents) then Ok(()) else Err(NotFound)
      ensures agents == if r.Ok? then old(agents)[id := Enabled(old(agents)[id])] else old(agents)
      ensures r.Ok? ==> agents[id] == old(agents)[id].(status := agents[id].status)
      ensures r.Ok? ==> agents[id].status != Disabled && (agents[id].status == Busy <==> agents[id].active > 0)
    {
      if id !in agents { return Err(NotFound); }
      agents := agents[id := agents[id].(status := if agents[id].active > 0 then Busy else Idle)];
      return Ok(());
    }
  }

  function Enabled(agent: Agent): Agent {
    agent.(status := if agent.active > 0 then Busy else Idle)
  }
}
