/**
 The depth-first cycle check that plans (`planning-engine.ts`) and workflows
 (`workflow-engine.ts`) run before they accept a set of steps.
 */
module CycleCheck {
  import opened Prelude
  import opened Dag

  datatype Mark = Visiting | Done

  /** The trail an error message shows: it follows dependencies and ends on an id it has already passed. */
  ghost predicate ShowsCycle(g: Graph, shown: seq<Id>) {
    && |shown| >= 2
    && IsTrail(g, shown)
    && shown[|shown| - 1] in shown[..|shown| - 1]
  }

  lemma ShownCycleExists(g: Graph, shown: seq<Id>)
    requires ShowsCycle(g, shown)
    ensures HasCycle(g)
  {
    var i :| 0 <= i < |shown| - 1 && shown[i] == shown[|shown| - 1];
    assert IsCycle(g, shown[i..]);
  }

  ghost predicate AllIn(ids: seq<Id>, list: seq<Id>) {
    forall x :: x in ids ==> x in list
  }

  lemma OneMoreIn(ids: seq<Id>, i: nat, before: seq<Id>, after: seq<Id>)
    requires i < |ids| && AllIn(ids[..i], before) && before <= after && ids[i] in after
    ensures AllIn(ids[..i + 1], after)
  {
    assert ids[..i + 1] == ids[..i] + [ids[i]];
  }

  class DepthFirst {
    const g: Graph
    var marks: map<Id, Mark>
    ghost var finished: seq<Id>

    constructor (g: Graph)
      ensures this.g == g && marks == map[] && finished == [] && Valid([])
    {
      this.g := g;
      marks := map[];
      finished := [];
    }

    /** `trail` holds the ids being visited; the finished ids are in topological order. */
    ghost predicate Valid(trail: seq<Id>)
      reads this
    {
      && IsTrail(g, trail)
      && (forall x :: x in trail <==> x in marks && marks[x] == Visiting)
      && (forall x :: x in finished <==> x in marks && marks[x] == Done)
      && IsTopological(g, finished)
    }

    /** Returns the trail of the error it throws, if it throws. */
    method Visit(id: Id, trail: seq<Id>) returns (thrown: Option<seq<Id>>)
      requires Valid(trail)
      requires trail != [] ==> DependsOn(g, trail[|trail| - 1], id)
      modifies this
      ensures thrown.None? ==> Valid(trail) && id in finished && old(finished) <= finished
      ensures thrown.None? ==> old(marks.Keys) <= marks.Keys
      ensures thrown.Some? ==> ShowsCycle(g, thrown.value)
      decreases g.Keys - marks.Keys, id !in marks
    {
      if id in marks && marks[id] == Done { return None; }
      if id in marks {
        return Some(trail + [id]);
      }
      marks := marks[id := Visiting];
      var here := trail + [id];
      var dependencies := if id in g then g[id] else [];
      for i := 0 to |dependencies|
        invariant Valid(here)
        invariant old(finished) <= finished && old(marks.Keys) + {id} <= marks.Keys
        invariant AllIn(dependencies[..i], finished)
      {
        assert DependsOn(g, id, dependencies[i]);
        ghost var before := finished;
        thrown := Visit(dependencies[i], here);
        if thrown.Some? { return; }
        OneMoreIn(dependencies, i, before, finished);
      }
      assert dependencies[..|dependencies|] == dependencies;
      Finish(id, trail);
      thrown := None;
    }

    /** Marks an id done once everything it depends on is. */
    method Finish(id: Id, ghost trail: seq<Id>)
      requires Valid(trail + [id]) && id !in trail && forall d :: DependsOn(g, id, d) ==> d in finished
      modifies this
      ensures Valid(trail) && finished == old(finished) + [id] && marks.Keys == old(marks.Keys)
    {
      TopologicalAppend(g, finished, id);
      assert IsTrail(g, trail) by {
        assert forall i :: 0 <= i < |trail| ==> (trail + [id])[i] == trail[i];
      }
      assert forall x :: x in trail + [id] <==> x in trail || x == id;
      marks := marks[id := Done];
      finished := finished + [id];
    }
  }

  /** `assertAcyclic`: throws exactly when the dependencies have a cycle, and shows one. */
  method AssertAcyclic(g: Graph, ids: seq<Id>) returns (thrown: Option<seq<Id>>, ghost order: seq<Id>)
    requires g.Keys == Elements(ids)
    ensures thrown.Some? <==> HasCycle(g)
    ensures thrown.Some? ==> ShowsCycle(g, thrown.value)
    ensures thrown.None? ==> IsTopological(g, order) && g.Keys <= Elements(order)
  {
    var search := new DepthFirst(g);
    order := [];
    for i := 0 to |ids|
      invariant search.g == g && search.Valid([]) && fresh(search)
      invariant forall x :: x in ids[..i] ==> x in search.finished
    {
      thrown := search.Visit(ids[i], []);
      if thrown.Some? {
        ShownCycleExists(g, thrown.value);
        return;
      }
    }
    thrown := None;
    order := search.finished;
    assert ids[..|ids|] == ids;
    TopologicalAcyclic(g, order);
  }
}
