/** Plugin records and their dependency structure (`plugin-registry.ts`). */
module Plugins {
  import opened Prelude
  import opened Dag

  datatype PluginState = Registered | Activating | Active | Failed | Deactivated

  type Disposer = string

  /** `cleanups` lists what the plugin's `activate` callback hands to `onDispose` before it returns or throws. */
  datatype Plugin = Plugin(dependencies: seq<Id>, cleanups: seq<Disposer>, state: PluginState, disposers: seq<Disposer>)

  type Records = map<Id, Plugin>

  function GraphOf(plugins: Records): Graph {
    map id | id in plugins :: plugins[id].dependencies
  }

  function InState(plugins: Records, state: PluginState): set<Id> {
    set id | id in plugins && plugins[id].state == state
  }

  /** `order` lists the active plugins, each after everything it depends on. */
  ghost predicate ActivationOrder(plugins: Records, order: seq<Id>) {
    && Distinct(order)
    && Elements(order) == InState(plugins, Active)
    && IsTopological(GraphOf(plugins), order)
  }

  /** Only active plugins hold disposers, and they hold all that they registered. */
  predicate DisposersHeld(plugins: Records) {
    forall id :: id in plugins ==> plugins[id].disposers == if plugins[id].state == Active then plugins[id].cleanups else []
  }

  /** A reason for activation to fail: dependencies lead through inactive plugins to a missing, faulty or repeated one. */
  ghost predicate Blocks(plugins: Records, faulty: set<Id>, trail: seq<Id>) {
    && trail != [] && IsTrail(GraphOf(plugins), trail)
    && (forall x :: x in trail ==> x !in InState(plugins, Active))
    && var last := trail[|trail| - 1];
      last !in plugins || last in faulty || last in InState(plugins, Activating) || last in trail[..|trail| - 1]
  }

  ghost predicate Blocked(plugins: Records, faulty: set<Id>, id: Id) {
    exists trail :: Blocks(plugins, faulty, trail) && trail[0] == id
  }

  /** The active set is closed under dependencies and none of its members reaches a cycle. */
  ghost predicate ActiveSetSound(plugins: Records) {
    && (forall v, d :: v in InState(plugins, Active) && DependsOn(GraphOf(plugins), v, d) ==> d in InState(plugins, Active))
    && forall t, c :: ReachesCycle(plugins, t, c) ==> t[0] !in InState(plugins, Active)
  }

  ghost predicate ReachesCycle(plugins: Records, t: seq<Id>, c: seq<Id>) {
    t != [] && IsTrail(GraphOf(plugins), t) && IsCycle(GraphOf(plugins), c) && c[0] == t[|t| - 1]
  }

  lemma {:induction false} OrderMakesActiveSetSound(plugins: Records, order: seq<Id>)
    requires ActivationOrder(plugins, order)
    ensures ActiveSetSound(plugins)
  {
    var g, active := GraphOf(plugins), InState(plugins, Active);
    forall v, d | v in active && DependsOn(g, v, d)
      ensures d in active
    {
      assert v in Elements(order);
      var i := IndexOf(order, v);
      assert d in order[..i];
      assert d in order;
      assert d in Elements(order);
    }
    forall t, c | ReachesCycle(plugins, t, c)
      ensures t[0] !in active
    {
      assert t[0] in active <==> t[0] in order by {
        assert t[0] in active <==> t[0] in Elements(order);
      }
      if t[0] in order {
        TopologicalNoCycle(g, order, t, c);
      }
    }
  }

  lemma TrailConcat(g: Graph, t: seq<Id>, c: seq<Id>)
    requires t != [] && c != [] && IsTrail(g, t) && IsTrail(g, c) && c[0] == t[|t| - 1]
    ensures IsTrail(g, t + c[1..])
  {
    var whole := t + c[1..];
    forall i | 0 <= i < |whole| - 1
      ensures DependsOn(g, whole[i], whole[i + 1])
    {
      if i < |t| - 1 {
        assert DependsOn(g, t[i], t[i + 1]);
      } else {
        assert DependsOn(g, c[i - (|t| - 1)], c[i - (|t| - 1) + 1]);
      }
    }
  }

  /** Nothing that reaches a dependency cycle can be activated. */
  lemma {:induction false} CyclesBlock(plugins: Records, faulty: set<Id>, t: seq<Id>, c: seq<Id>)
    requires ActiveSetSound(plugins) && ReachesCycle(plugins, t, c)
    ensures Blocked(plugins, faulty, t[0])
  {
    var g, trail := GraphOf(plugins), t + c[1..];
    TrailConcat(g, t, c);
    forall i | 0 <= i < |trail|
      ensures trail[i] !in InState(plugins, Active)
    {
      var here := trail[i..];
      forall k | 0 <= k < |here| - 1
        ensures DependsOn(g, here[k], here[k + 1])
      {
        assert DependsOn(g, trail[i + k], trail[i + k + 1]);
      }
      assert ReachesCycle(plugins, here, c);
    }
    var last := |trail| - 1;
    assert trail[last] == c[0] == t[|t| - 1] == trail[..last][|t| - 1];
    assert Blocks(plugins, faulty, trail);
  }

  /** A topological order survives changes to the edges of other ids. */
  lemma SameEdges(g: Graph, h: Graph, order: seq<Id>)
    requires IsTopological(g, order)
    requires forall v, d :: v in order && DependsOn(h, v, d) ==> DependsOn(g, v, d)
    ensures IsTopological(h, order)
  {
  }

  /** Once a plugin and the plugins listed before it have been activated, nothing blocks it any more than before. */
  lemma {:induction false} ActivatedWasNotBlocked(before: Records, after: Records, faulty: set<Id>, order: seq<Id>, id: Id)
    requires GraphOf(before) == GraphOf(after) && before.Keys == after.Keys
    requires ActivationOrder(after, order) && id in order
    requires forall x :: x in order && x !in InState(before, Active) ==> x !in faulty && x !in InState(before, Activating)
    ensures !Blocked(before, faulty, id)
  {
    forall trail | IsTrail(GraphOf(before), trail) && trail != [] && trail[0] == id
      ensures !Blocks(before, faulty, trail)
    {
      TrailNeverReturns(GraphOf(after), order, trail);
      EndsSettled(before, after, faulty, order, trail);
    }
  }

  lemma EndsSettled(before: Records, after: Records, faulty: set<Id>, order: seq<Id>, trail: seq<Id>)
    requires before.Keys == after.Keys && Elements(order) == InState(after, Active)
    requires forall x :: x in order && x !in InState(before, Active) ==> x !in faulty && x !in InState(before, Activating)
    requires trail != [] && trail[|trail| - 1] in order && trail[|trail| - 1] !in trail[..|trail| - 1]
    ensures !Blocks(before, faulty, trail)
  {
    assert trail[|trail| - 1] in Elements(order) && trail[|trail| - 1] in trail;
  }

  /** While more plugins become active, nothing becomes blocked. */
  lemma BlockedBefore(before: Records, during: Records, faulty: set<Id>, id: Id)
    requires GraphOf(during) == GraphOf(before) && during.Keys == before.Keys
    requires InState(before, Active) <= InState(during, Active) && InState(during, Activating) == InState(before, Activating)
    requires Blocked(during, faulty, id)
    ensures Blocked(before, faulty, id)
  {
    var trail :| Blocks(during, faulty, trail) && trail[0] == id;
    assert Blocks(before, faulty, trail);
  }

  /** What blocks a dependency blocks the plugin that needs it. */
  lemma BlockedByDependency(plugins: Records, marked: Records, faulty: set<Id>, id: Id, dependency: Id)
    requires id in plugins && plugins[id].state != Active && marked == plugins[id := plugins[id].(state := Activating)]
    requires dependency in plugins[id].dependencies && Blocked(marked, faulty, dependency)
    ensures Blocked(plugins, faulty, id)
  {
    assert GraphOf(marked) == GraphOf(plugins);
    var rest :| Blocks(marked, faulty, rest) && rest[0] == dependency;
    var trail, last := [id] + rest, |rest| - 1;
    forall i | 0 <= i < |trail| - 1
      ensures DependsOn(GraphOf(plugins), trail[i], trail[i + 1])
    {
      assert i > 0 ==> DependsOn(GraphOf(plugins), rest[i - 1], rest[i - 1 + 1]);
    }
    assert trail[..|trail| - 1] == [id] + rest[..last];
    assert Blocks(plugins, faulty, trail);
  }

  lemma BlockedDirectly(plugins: Records, faulty: set<Id>, id: Id)
    requires id !in InState(plugins, Active)
    requires id !in plugins || id in faulty || id in InState(plugins, Activating)
    ensures Blocked(plugins, faulty, id)
  {
    assert Blocks(plugins, faulty, [id]);
  }
}
