/** Recursive activation and guarded deactivation of plugins (`plugin-registry.ts`). */
module PluginRegistry {
  import opened Prelude
  import opened Dag
  import opened Plugins

  /** Nothing about these plugins but the state of activation has changed. */
  ghost predicate SamePlugins(before: Records, after: Records) {
    && before.Keys == after.Keys && GraphOf(before) == GraphOf(after)
    && forall id :: id in before ==> before[id].cleanups == after[id].cleanups
  }

  /** How many cleanups the listed plugins hold. */
  function Held(plugins: Records, order: seq<Id>): nat {
    if order == [] then 0
    else Held(plugins, order[..|order| - 1]) + (var last := order[|order| - 1]; if last in plugins then |plugins[last].disposers| else 0)
  }

  lemma {:induction false} HeldDependsOnListed(a: Records, b: Records, order: seq<Id>)
    requires forall id :: id in order ==> id in a && id in b && a[id].disposers == b[id].disposers
    ensures Held(a, order) == Held(b, order)
  {
    if order == [] {
    } else {
      HeldDependsOnListed(a, b, order[..|order| - 1]);
    }
  }

  /** What activation and deactivation maintain, as a property of values. */
  ghost predicate Consistent(plugins: Records, order: seq<Id>) {
    ActivationOrder(plugins, order) && DisposersHeld(plugins)
  }

  lemma OrderIsActive(plugins: Records, order: seq<Id>, id: Id)
    requires ActivationOrder(plugins, order)
    ensures id in order <==> id in plugins && plugins[id].state == Active
  {
    assert id in Elements(order) <==> id in InState(plugins, Active);
  }

  function Marked(plugins: Records, id: Id): Records
    requires id in plugins
  {
    plugins[id := plugins[id].(state := Activating)]
  }

  /** Moving an inactive plugin to another inactive state. */
  lemma MarkKeeps(plugins: Records, order: seq<Id>, id: Id, state: PluginState)
    requires Consistent(plugins, order)
    requires id in plugins && plugins[id].state != Active && state != Active
    ensures var after := plugins[id := plugins[id].(state := state)];
      Consistent(after, order) && Held(after, order) == Held(plugins, order) && SamePlugins(plugins, after)
      && InState(after, Active) == InState(plugins, Active)
      && InState(after, Activating) == if state == Activating then InState(plugins, Activating) + {id} else InState(plugins, Activating) - {id}
  {
    var after := plugins[id := plugins[id].(state := state)];
    assert GraphOf(after) == GraphOf(plugins);
    forall x | x in order
      ensures x in plugins && x != id
    {
      OrderIsActive(plugins, order, x);
    }
    HeldDependsOnListed(plugins, after, order);
  }

  function Activated(plugins: Records, id: Id): Records
    requires id in plugins
  {
    plugins[id := plugins[id].(state := Active, disposers := plugins[id].cleanups)]
  }

  lemma ActivatedStates(plugins: Records, id: Id)
    requires id in plugins && plugins[id].state != Active
    ensures GraphOf(Activated(plugins, id)) == GraphOf(plugins) && SamePlugins(plugins, Activated(plugins, id))
    ensures InState(Activated(plugins, id), Active) == InState(plugins, Active) + {id}
    ensures InState(Activated(plugins, id), Activating) == InState(plugins, Activating) - {id}
  {
    assert GraphOf(Activated(plugins, id)) == GraphOf(plugins);
  }

  lemma ActivatedHeld(plugins: Records, order: seq<Id>, id: Id)
    requires id in plugins && id !in order && forall x :: x in order ==> x in plugins
    ensures Held(Activated(plugins, id), order + [id]) == Held(plugins, order) + |plugins[id].cleanups|
  {
    HeldDependsOnListed(plugins, Activated(plugins, id), order);
    assert (order + [id])[..|order|] == order;
  }

  /** Completing the activation of a plugin whose dependencies are active. */
  lemma ActivatedKeeps(plugins: Records, order: seq<Id>, id: Id)
    requires Consistent(plugins, order)
    requires id in plugins && plugins[id].state != Active && forall d :: d in plugins[id].dependencies ==> d in order
    ensures Consistent(Activated(plugins, id), order + [id])
    ensures Held(Activated(plugins, id), order + [id]) == Held(plugins, order) + |plugins[id].cleanups|
  {
    ActivatedStates(plugins, id);
    forall x | x in order
      ensures x in plugins && x != id
    {
      OrderIsActive(plugins, order, x);
    }
    TopologicalAppend(GraphOf(plugins), order, id);
    assert Elements(order + [id]) == Elements(order) + {id};
    ActivatedHeld(plugins, order, id);
  }

  /** What an activation may change: more plugins become active, none of them faulty or already being activated. */
  ghost predicate Progressed(before: Records, listed: seq<Id>, after: Records, order: seq<Id>, faulty: set<Id>) {
    && SamePlugins(before, after)
    && InState(after, Activating) == InState(before, Activating)
    && InState(before, Active) <= InState(after, Active)
    && listed <= order
    && forall x :: x in order && x !in InState(before, Active) ==> x !in faulty && x !in InState(before, Activating)
  }

  lemma {:induction false} ProgressTwice(a: Records, x: seq<Id>, b: Records, y: seq<Id>, c: Records, z: seq<Id>, faulty: set<Id>)
    requires Progressed(a, x, b, y, faulty) && Progressed(b, y, c, z, faulty) && Consistent(b, y)
    ensures Progressed(a, x, c, z, faulty)
  {
  }

  lemma ListedStays(listed: seq<Id>, order: seq<Id>, wanted: seq<Id>, i: nat)
    requires listed <= order && i < |wanted| && wanted[i] in order
    requires forall d :: d in wanted[..i] ==> d in listed
    ensures forall d :: d in wanted[..i + 1] ==> d in order
  {
    assert wanted[..i + 1] == wanted[..i] + [wanted[i]];
  }

  /** A failed activation puts the registry back in order. */
  lemma FailedProgress(before: Records, listed: seq<Id>, during: Records, order: seq<Id>, faulty: set<Id>, id: Id)
    requires id in before && before[id].state != Active && before[id].state != Activating
    requires Progressed(Marked(before, id), listed, during, order, faulty) && Consistent(during, order)
    ensures var after := during[id := during[id].(state := Failed)];
      Progressed(before, listed, after, order, faulty) && Consistent(after, order) && Held(after, order) == Held(during, order)
  {
    var marked := Marked(before, id);
    assert GraphOf(marked) == GraphOf(before);
    assert id in InState(marked, Activating);
    assert InState(before, Activating) == InState(marked, Activating) - {id};
    assert id in InState(during, Activating);
    MarkKeeps(during, order, id, Failed);
  }

  /** A successful one adds just the plugin itself. */
  lemma ActivatedProgress(before: Records, listed: seq<Id>, during: Records, order: seq<Id>, faulty: set<Id>, id: Id)
    requires id in before && before[id].state != Active && before[id].state != Activating && id !in faulty
    requires Progressed(Marked(before, id), listed, during, order, faulty)
    ensures Progressed(before, listed, Activated(during, id), order + [id], faulty)
    ensures during[id].state == Activating
  {
    var marked := Marked(before, id);
    assert GraphOf(marked) == GraphOf(before);
    assert id in InState(marked, Activating);
    assert id in InState(during, Activating);
    assert InState(before, Activating) == InState(marked, Activating) - {id};
    ActivatedStates(during, id);
  }

  ghost predicate RegisteredListed(before: Records, ids: seq<Id>, order: seq<Id>) {
    forall x :: x in ids && x in InState(before, Registered) ==> x in order
  }

  lemma ListedFurther(before: Records, ids: seq<Id>, i: nat, listed: seq<Id>, order: seq<Id>)
    requires i < |ids| && RegisteredListed(before, ids[..i], listed) && listed <= order
    requires ids[i] in InState(before, Registered) ==> ids[i] in order
    ensures RegisteredListed(before, ids[..i + 1], order)
  {
    assert ids[..i + 1] == ids[..i] + [ids[i]];
  }

  lemma AllActivated(before: Records, after: Records, registration: seq<Id>, listed: seq<Id>, order: seq<Id>, faulty: set<Id>)
    requires Elements(registration) == before.Keys && Consistent(after, order)
    requires Progressed(before, listed, after, order, faulty)
    requires RegisteredListed(before, registration, order)
    ensures forall x :: x in InState(before, Registered) ==> !Blocked(before, faulty, x)
    ensures InState(before, Registered) <= InState(after, Active)
  {
    forall x | x in InState(before, Registered)
      ensures x in InState(after, Active) && !Blocked(before, faulty, x)
    {
      assert x in Elements(registration);
      ActivatedWasNotBlocked(before, after, faulty, order, x);
      OrderIsActive(after, order, x);
    }
  }

  /** How the record of the plugin ends up, and which plugins are active then. */
  ghost predicate Settles(during: Records, listed: seq<Id>, after: Records, order: seq<Id>, id: Id, ok: bool)
    requires id in during
  {
    if ok then after == Activated(during, id) && order == listed + [id]
    else after == during[id := during[id].(state := Failed)] && order == listed
  }

  /** Why it ends up so. */
  ghost predicate Justified(marked: Records, during: Records, listed: seq<Id>, faulty: set<Id>, id: Id, ok: bool, blamed: Id)
    requires id in marked && id in during
  {
    if ok then id !in faulty && forall d :: d in during[id].dependencies ==> d in listed
    else id in faulty || (blamed in marked[id].dependencies && Blocked(marked, faulty, blamed))
  }

  /** The states of other plugins stay as they were, or become active. */
  ghost predicate Undisturbed(before: Records, after: Records)
    requires before.Keys == after.Keys
  {
    forall x :: x in before ==> after[x].state == before[x].state || after[x].state == Active
  }

  lemma SettledUndisturbed(before: Records, during: Records, id: Id)
    requires id in before && before.Keys == during.Keys
    requires Undisturbed(Marked(before, id), during)
    ensures Undisturbed(before, Activated(during, id))
  {
    var marked := Marked(before, id);
    forall x | x in before && x != id
      ensures during[x].state == before[x].state || during[x].state == Active
    {
      assert x in marked && marked[x] == before[x];
    }
  }

  /** Activation of an inactive plugin as a whole. */
  lemma SettledActivation(before: Records, listed: seq<Id>, during: Records, order: seq<Id>, after: Records, settled: seq<Id>,
                          faulty: set<Id>, id: Id, ok: bool, blamed: Id)
    requires id in before && before[id].state != Active && before[id].state != Activating
    requires Progressed(Marked(before, id), listed, during, order, faulty) && Consistent(during, order)
    requires Settles(during, order, after, settled, id, ok)
    requires Justified(Marked(before, id), during, order, faulty, id, ok, blamed)
    ensures Progressed(before, listed, after, settled, faulty) && Consistent(after, settled)
    ensures Held(after, settled) == Held(during, order) + if ok then |during[id].cleanups| else 0
    ensures ok <==> !Blocked(before, faulty, id)
  {
    if ok {
      ActivatedProgress(before, listed, during, order, faulty, id);
      ActivatedKeeps(during, order, id);
      ActivatedWasNotBlocked(before, after, faulty, settled, id);
    } else {
      FailedProgress(before, listed, during, order, faulty, id);
      if id in faulty {
        BlockedDirectly(before, faulty, id);
      } else {
        BlockedByDependency(before, Marked(before, id), faulty, id, blamed);
      }
    }
  }

  lemma RegisterKeeps(plugins: Records, order: seq<Id>, id: Id, plugin: Plugin)
    requires Consistent(plugins, order) && id !in plugins && plugin.state == Registered && plugin.disposers == []
    ensures Consistent(plugins[id := plugin], order) && Held(plugins[id := plugin], order) == Held(plugins, order)
  {
    forall x
      ensures x in order <==> x in plugins && plugins[x].state == Active
    {
      OrderIsActive(plugins, order, x);
    }
    SameEdges(GraphOf(plugins), GraphOf(plugins[id := plugin]), order);
    HeldDependsOnListed(plugins, plugins[id := plugin], order);
  }

  lemma UnregisterKeeps(plugins: Records, order: seq<Id>, id: Id)
    requires Consistent(plugins, order) && (id in plugins ==> plugins[id].state != Active)
    ensures Consistent(plugins - {id}, order) && Held(plugins - {id}, order) == Held(plugins, order)
  {
    forall x
      ensures x in order <==> x in plugins && plugins[x].state == Active
    {
      OrderIsActive(plugins, order, x);
    }
    SameEdges(GraphOf(plugins), GraphOf(plugins - {id}), order);
    HeldDependsOnListed(plugins, plugins - {id}, order);
  }

  /** Some other active plugin depends on this one. */
  predicate Needed(plugins: Records, id: Id) {
    exists x :: x in plugins && x != id && plugins[x].state == Active && id in plugins[x].dependencies
  }

  predicate Deactivates(plugins: Records, id: Id) {
    id in plugins && plugins[id].state == Active && !Needed(plugins, id)
  }

  function DeactivationResult(plugins: Records, id: Id, throwing: set<Id>): Result<()> {
    if id !in plugins then Err(NotFound)
    else if plugins[id].state != Active then Ok(())
    else if Needed(plugins, id) then Err(InvalidState)
    else if id in throwing then Err(Thrown) else Ok(())
  }

  function Stopped(plugins: Records, id: Id): Records
    requires id in plugins
  {
    plugins[id := plugins[id].(state := Deactivated, disposers := [])]
  }

  ghost function Without(order: seq<Id>, id: Id): seq<Id> {
    if order == [] then []
    else
      var front, last := order[..|order| - 1], order[|order| - 1];
      if last == id then Without(front, id) else Without(front, id) + [last]
  }

  lemma {:induction false} WithoutTopological(g: Graph, order: seq<Id>, id: Id)
    requires IsTopological(g, order) && forall v :: v in order && v != id ==> !DependsOn(g, v, id)
    ensures IsTopological(g, Without(order, id))
    ensures forall x :: x in Without(order, id) <==> x in order && x != id
  {
    if order == [] {
    } else {
      var front, last := order[..|order| - 1], order[|order| - 1];
      assert order == front + [last];
      forall i | 0 <= i < |front|
        ensures order[..i] == front[..i]
      {
      }
      WithoutTopological(g, front, id);
      if last != id {
        TopologicalAppend(g, Without(front, id), last);
      }
    }
  }

  lemma {:induction false} WithoutDistinct(order: seq<Id>, id: Id)
    requires Distinct(order)
    ensures Distinct(Without(order, id)) && forall x :: x in Without(order, id) <==> x in order && x != id
    ensures id !in order ==> Without(order, id) == order
  {
    if order == [] {
    } else {
      var front, last := order[..|order| - 1], order[|order| - 1];
      assert order == front + [last] && last !in front;
      WithoutDistinct(front, id);
    }
  }

  lemma {:induction false} HeldWithout(plugins: Records, order: seq<Id>, id: Id)
    requires Distinct(order) && id in order && id in plugins
    ensures Held(plugins, order) == Held(plugins, Without(order, id)) + |plugins[id].disposers|
  {
    var front, last := order[..|order| - 1], order[|order| - 1];
    assert order == front + [last];
    WithoutDistinct(front, id);
    if last != id {
      HeldWithout(plugins, front, id);
      assert Without(order, id)[..|Without(front, id)|] == Without(front, id);
    }
  }

  lemma {:induction false} DeactivateKeeps(plugins: Records, order: seq<Id>, id: Id)
    requires Consistent(plugins, order) && Deactivates(plugins, id)
    ensures Consistent(Stopped(plugins, id), Without(order, id))
    ensures Held(plugins, order) == Held(Stopped(plugins, id), Without(order, id)) + |plugins[id].disposers|
  {
    OrderIsActive(plugins, order, id);
    StoppedOrder(plugins, order, id);
    HeldWithout(plugins, order, id);
    StoppedHeld(plugins, order, id);
  }

  lemma StoppedStates(plugins: Records, id: Id)
    requires id in plugins
    ensures GraphOf(Stopped(plugins, id)) == GraphOf(plugins) && InState(Stopped(plugins, id), Active) == InState(plugins, Active) - {id}
  {
    assert GraphOf(Stopped(plugins, id)) == GraphOf(plugins);
  }

  lemma NobodyNeeds(plugins: Records, order: seq<Id>, id: Id)
    requires ActivationOrder(plugins, order) && Deactivates(plugins, id)
    ensures forall v :: v in order && v != id ==> !DependsOn(GraphOf(plugins), v, id)
  {
    forall v | v in order && v != id
      ensures !DependsOn(GraphOf(plugins), v, id)
    {
      OrderIsActive(plugins, order, v);
    }
  }

  lemma StoppedOrder(plugins: Records, order: seq<Id>, id: Id)
    requires ActivationOrder(plugins, order) && Deactivates(plugins, id)
    ensures ActivationOrder(Stopped(plugins, id), Without(order, id))
  {
    StoppedStates(plugins, id);
    NobodyNeeds(plugins, order, id);
    WithoutTopological(GraphOf(plugins), order, id);
    WithoutDistinct(order, id);
    WithoutElements(order, id);
  }

  lemma WithoutElements(order: seq<Id>, id: Id)
    requires Distinct(order)
    ensures Elements(Without(order, id)) == Elements(order) - {id}
  {
    WithoutDistinct(order, id);
  }

  lemma StoppedHeld(plugins: Records, order: seq<Id>, id: Id)
    requires ActivationOrder(plugins, order) && id in plugins
    ensures Held(Stopped(plugins, id), Without(order, id)) == Held(plugins, Without(order, id))
  {
    WithoutDistinct(order, id);
    forall x | x in Without(order, id)
      ensures x in plugins && x != id
    {
      OrderIsActive(plugins, order, x);
    }
    HeldDependsOnListed(plugins, Stopped(plugins, id), Without(order, id));
  }

  /** Whether stopping the plugin at a position would be refused or make its callback throw. */
  ghost predicate Refused(before: Records, registration: seq<Id>, at: nat, throwing: set<Id>)
    requires at < |registration|
  {
    var id := registration[at];
    || (id in InState(before, Active) && id in throwing)
    || exists x :: x in registration[..at] && x in InState(before, Active) && DependsOn(GraphOf(before), x, id)
  }

  /** No active plugin was registered before one of its dependencies, and no callback throws. */
  ghost predicate StopsCleanly(before: Records, registration: seq<Id>, throwing: set<Id>) {
    forall at :: 0 <= at < |registration| ==> !Refused(before, registration, at, throwing)
  }

  /** Registering every plugin after its dependencies is enough. */
  lemma {:induction false} RegisteredAfterDependencies(plugins: Records, registration: seq<Id>)
    requires Distinct(registration) && IsTopological(GraphOf(plugins), registration)
    ensures StopsCleanly(plugins, registration, {})
  {
    forall at | 0 <= at < |registration|
      ensures !Refused(plugins, registration, at, {})
    {
      assert forall i :: 0 <= i < at ==> registration[at] !in registration[..i];
    }
  }

  /** Dependency order alone is not: a plugin registered before what it needs makes `deactivateAll` throw. */
  lemma {:induction false} ReverseRegistrationRefuses() returns (plugins: Records, order: seq<Id>, registration: seq<Id>)
    ensures ActivationOrder(plugins, order) && Distinct(registration) && Elements(registration) == plugins.Keys
    ensures !StopsCleanly(plugins, registration, {})
  {
    plugins := map["app" := Plugin(["base"], [], Active, []), "base" := Plugin([], [], Active, [])];
    order, registration := ["base", "app"], ["app", "base"];
    assert order[..1] == ["base"] && registration[..1] == ["app"];
    assert "base" in plugins["app"].dependencies;
    assert DependsOn(GraphOf(plugins), "app", "base");
    assert Refused(plugins, registration, 1, {});
  }

  /** The plugins registered from position `from` on have been stopped. */
  ghost predicate StoppedFrom(before: Records, now: Records, registration: seq<Id>, from: nat, throwing: set<Id>)
    requires from <= |registration|
  {
    && GraphOf(now) == GraphOf(before) && now.Keys == before.Keys
    && InState(now, Active) == InState(before, Active) - Elements(registration[from..])
    && forall at :: from <= at < |registration| ==> !Refused(before, registration, at, throwing)
  }

  lemma ActiveNow(before: Records, now: Records, registration: seq<Id>, at: nat, throwing: set<Id>, x: Id)
    requires Distinct(registration) && Elements(registration) == before.Keys
    requires at < |registration| && StoppedFrom(before, now, registration, at + 1, throwing)
    ensures x in InState(now, Active) <==> x in InState(before, Active) && (x == registration[at] || x in registration[..at])
  {
    assert registration == registration[..at] + [registration[at]] + registration[at + 1..];
    assert x in Elements(registration) <==> x in before.Keys;
  }

  /** The registry refuses at a position exactly when it should. */
  lemma RefusedIff(before: Records, now: Records, registration: seq<Id>, at: nat, throwing: set<Id>)
    requires Distinct(registration) && Elements(registration) == before.Keys && ActiveSetSound(before)
    requires at < |registration| && StoppedFrom(before, now, registration, at + 1, throwing)
    ensures DeactivationResult(now, registration[at], throwing).Err? <==> Refused(before, registration, at, throwing)
  {
    var id := registration[at];
    assert id in Elements(registration);
    ActiveNow(before, now, registration, at, throwing, id);
    assert forall x :: x in before ==> now[x].dependencies == GraphOf(now)[x] == GraphOf(before)[x];
    if Needed(now, id) {
      var x :| x in now && x != id && now[x].state == Active && id in now[x].dependencies;
      ActiveNow(before, now, registration, at, throwing, x);
      assert DependsOn(GraphOf(before), x, id);
    }
    if x :| x in registration[..at] && x in InState(before, Active) && DependsOn(GraphOf(before), x, id) {
      ActiveNow(before, now, registration, at, throwing, x);
      assert x in now && x != id && now[x].state == Active && id in now[x].dependencies;
    }
  }

  /** One step back through the registration order. */
  lemma StopStep(before: Records, now: Records, registration: seq<Id>, at: nat, throwing: set<Id>)
    requires Distinct(registration) && Elements(registration) == before.Keys && ActiveSetSound(before)
    requires at < |registration| && StoppedFrom(before, now, registration, at + 1, throwing)
    requires DeactivationResult(now, registration[at], throwing).Ok?
    ensures StoppedFrom(before, if Deactivates(now, registration[at]) then Stopped(now, registration[at]) else now, registration, at, throwing)
  {
    var id := registration[at];
    RefusedIff(before, now, registration, at, throwing);
    assert registration[at..] == [id] + registration[at + 1..];
    assert Elements(registration[at..]) == {id} + Elements(registration[at + 1..]);
    if Deactivates(now, id) {
      assert GraphOf(Stopped(now, id)) == GraphOf(now);
      assert InState(Stopped(now, id), Active) == InState(now, Active) - {id};
    } else {
      assert id !in InState(now, Active);
    }
  }

  class PluginRegistry {
    var plugins: Records
    /** The plugins in registration order, as the source's `Map` iterates. */
    var registration: seq<Id>
    /** Every disposer that has run, oldest first. */
    var ran: seq<Disposer>
    /** The active plugins in the order they became active. */
    ghost var order: seq<Id>
    /** How many disposers plugins have registered so far. */
    ghost var handed: nat

    constructor ()
      ensures plugins == map[] && registration == [] && ran == [] && Valid() && InState(plugins, Activating) == {}
    {
      plugins, registration, ran, order, handed := map[], [], [], [], 0;
    }

    ghost predicate Valid()
      reads this
    {
      && Distinct(registration) && Elements(registration) == plugins.Keys
      && Consistent(plugins, order)
      && handed == |ran| + Held(plugins, order)
    }

    method Register(id: Id, semanticVersion: bool, dependencies: seq<Id>, cleanups: seq<Disposer>) returns (r: Result<()>)
      requires Valid()
      modifies this
      ensures Valid()
      ensures r == if !ValidName(id, 64) || !semanticVersion then Err(InvalidArgument) else if id in old(plugins) then Err(Duplicate) else Ok(())
      ensures r.Ok? ==> plugins == old(plugins)[id := Plugin(dependencies, cleanups, Registered, [])]
      ensures r.Ok? ==> registration == old(registration) + [id]
      ensures r.Err? ==> plugins == old(plugins) && registration == old(registration)
      ensures order == old(order) && ran == old(ran)
    {
      if !ValidName(id, 64) || !semanticVersion { return Err(InvalidArgument); }
      if id in plugins { return Err(Duplicate); }
      RegisterKeeps(plugins, order, id, Plugin(dependencies, cleanups, Registered, []));
      assert id !in Elements(registration);
      assert Elements(registration + [id]) == Elements(registration) + {id};
      plugins := plugins[id := Plugin(dependencies, cleanups, Registered, [])];
      registration := registration + [id];
      return Ok(());
    }

    method Unregister(id: Id) returns (r: Result<bool>)
      requires Valid()
      modifies this
      ensures Valid()
      ensures r == if id in old(plugins) && old(plugins)[id].state == Active then Err(InvalidState) else Ok(id in old(plugins))
      ensures plugins == if r.Ok? then old(plugins) - {id} else old(plugins)
      ensures registration == if r.Ok? then Filter(old(registration), (x: Id) => x != id) else old(registration)
      ensures order == old(order) && ran == old(ran)
    {
      if id in plugins && plugins[id].state == Active { return Err(InvalidState); }
      r := Ok(id in plugins);
      UnregisterKeeps(plugins, order, id);
      FilterDistinct(registration, (x: Id) => x != id);
      assert Elements(Filter(registration, (x: Id) => x != id)) == Elements(registration) - {id};
      plugins := plugins - {id};
      registration := Filter(registration, (x: Id) => x != id);
    }

    /** `dispose`: empties the record and runs its disposers, latest first. */
    method Dispose(id: Id)
      requires id in plugins
      modifies this`plugins, this`ran
      ensures plugins == old(plugins)[id := old(plugins)[id].(disposers := [])]
      ensures ran == old(ran) + Reversed(old(plugins)[id].disposers)
    {
      var pending := Reversed(plugins[id].disposers);
      plugins := plugins[id := plugins[id].(disposers := [])];
      for i := 0 to |pending|
        invariant plugins == old(plugins)[id := old(plugins)[id].(disposers := [])]
        invariant ran == old(ran) + pending[..i]
      {
        ran := ran + [pending[i]];
      }
    }

    /** The tail of `activate`: run the plugin's own callback, then settle the record. */
    method Complete(id: Id, faulty: set<Id>) returns (r: Result<()>)
      requires id in plugins && plugins[id].disposers == []
      modifies this
      ensures registration == old(registration) && handed == old(handed) + |old(plugins)[id].cleanups|
      ensures r.Ok? <==> id !in faulty
      ensures r.Ok? ==> plugins == Activated(old(plugins), id) && order == old(order) + [id] && ran == old(ran)
      ensures r.Err? ==> plugins == old(plugins)[id := old(plugins)[id].(state := Failed)] && order == old(order)
      ensures r.Err? ==> ran == old(ran) + Reversed(old(plugins)[id].cleanups)
    {
      handed := handed + |plugins[id].cleanups|;
      plugins := plugins[id := plugins[id].(disposers := plugins[id].cleanups)];
      if id !in faulty {
        plugins := plugins[id := plugins[id].(state := Active)];
        order := order + [id];
        return Ok(());
      }
      Fail(id);
      return Err(Thrown);
    }

    /** The `catch` block of `activate`. */
    method Fail(id: Id)
      requires id in plugins
      modifies this`plugins, this`ran
      ensures plugins == old(plugins)[id := old(plugins)[id].(state := Failed, disposers := [])]
      ensures ran == old(ran) + Reversed(old(plugins)[id].disposers)
    {
      plugins := plugins[id := plugins[id].(state := Failed)];
      Dispose(id);
    }

    /** The loop of `activate` over the plugin's dependencies. */
    method ActivateDependencies(id: Id, faulty: set<Id>) returns (failure: Option<Error>, ghost blamed: Id)
      requires Valid() && id in plugins
      modifies this
      ensures Valid() && registration == old(registration) && Progressed(old(plugins), old(order), plugins, order, faulty)
      ensures failure.None? ==> forall d :: d in old(plugins)[id].dependencies ==> d in order
      ensures failure.None? ==> Undisturbed(old(plugins), plugins)
      ensures failure.Some? ==> blamed in old(plugins)[id].dependencies && Blocked(old(plugins), faulty, blamed)
      decreases plugins.Keys - InState(plugins, Activating), 1
    {
      var dependencies := plugins[id].dependencies;
      for i := 0 to |dependencies|
        invariant Valid() && registration == old(registration) && Progressed(old(plugins), old(order), plugins, order, faulty)
        invariant forall d :: d in dependencies[..i] ==> d in order
        invariant Undisturbed(old(plugins), plugins)
      {
        blamed := dependencies[i];
        ghost var during, listed := plugins, order;
        if dependencies[i] !in plugins {
          BlockedDirectly(plugins, faulty, blamed);
          BlockedBefore(old(plugins), during, faulty, blamed);
          failure := Some(NotFound);
          return;
        }
        var done := Activate(dependencies[i], faulty);
        ProgressTwice(old(plugins), old(order), during, listed, plugins, order, faulty);
        if done.Err? {
          BlockedBefore(old(plugins), during, faulty, blamed);
          failure := Some(done.error);
          return;
        }
        ListedStays(listed, order, dependencies, i);
      }
      failure := None;
      blamed := id;
    }

    method Activate(id: Id, faulty: set<Id>) returns (r: Result<()>)
      requires Valid()
      modifies this
      ensures Valid() && registration == old(registration) && Progressed(old(plugins), old(order), plugins, order, faulty)
      ensures r.Ok? <==> !Blocked(old(plugins), faulty, id)
      ensures r.Ok? ==> id in order && Undisturbed(old(plugins), plugins)
      ensures r.Err? && id in old(plugins) ==> id in plugins && plugins[id].state == if old(plugins)[id].state == Activating then Activating else Failed
      decreases plugins.Keys - InState(plugins, Activating), 0
    {
      OrderIsActive(plugins, order, id);
      if id !in plugins {
        BlockedDirectly(plugins, faulty, id);
        return Err(NotFound);
      }
      if plugins[id].state == Active {
        ActivatedWasNotBlocked(plugins, plugins, faulty, order, id);
        return Ok(());
      }
      if plugins[id].state == Activating {
        BlockedDirectly(plugins, faulty, id);
        return Err(InvalidState);
      }
      ghost var during, listed, blamed;
      r, during, listed, blamed := Attempt(id, faulty);
      SettledActivation(old(plugins), old(order), during, listed, plugins, order, faulty, id, r.Ok?, blamed);
      if r.Ok? {
        SettledUndisturbed(old(plugins), during, id);
      }
    }

    /** `activate` from where it marks the record; `during` and `listed` are the state once the dependencies are done. */
    method Attempt(id: Id, faulty: set<Id>) returns (r: Result<()>, ghost during: Records, ghost listed: seq<Id>, ghost blamed: Id)
      requires Valid() && id in plugins && plugins[id].state != Active && plugins[id].state != Activating
      modifies this
      ensures registration == old(registration)
      ensures Progressed(Marked(old(plugins), id), old(order), during, listed, faulty) && Consistent(during, listed)
      ensures id in during && Settles(during, listed, plugins, order, id, r.Ok?)
      ensures Justified(Marked(old(plugins), id), during, listed, faulty, id, r.Ok?, blamed)
      ensures r.Ok? ==> Undisturbed(Marked(old(plugins), id), during)
      ensures handed == |ran| + Held(during, listed) + if r.Ok? then |during[id].cleanups| else 0
      decreases plugins.Keys - InState(plugins, Activating), 0, 0
    {
      MarkKeeps(plugins, order, id, Activating);
      plugins := Marked(plugins, id);
      var failure;
      failure, blamed := ActivateDependencies(id, faulty);
      during, listed := plugins, order;
      StillMarked(Marked(old(plugins), id), during, id);
      if failure.Some? {
        Fail(id);
        r := Err(failure.value);
      } else {
        r := Complete(id, faulty);
      }
    }

    /** Activates, in registration order, what has not been activated before; stops at the first failure. */
    method ActivateAll(faulty: set<Id>) returns (r: Result<()>)
      requires Valid()
      modifies this
      ensures Valid() && registration == old(registration) && Progressed(old(plugins), old(order), plugins, order, faulty)
      ensures r.Ok? <==> forall id :: id in InState(old(plugins), Registered) ==> !Blocked(old(plugins), faulty, id)
      ensures r.Ok? ==> InState(old(plugins), Registered) <= InState(plugins, Active)
    {
      for i := 0 to |registration|
        invariant Valid() && registration == old(registration) && Progressed(old(plugins), old(order), plugins, order, faulty)
        invariant Undisturbed(old(plugins), plugins)
        invariant RegisteredListed(old(plugins), registration[..i], order)
      {
        var id := registration[i];
        assert id in Elements(registration);
        ghost var during, listed := plugins, order;
        if plugins[id].state == Registered {
          r := Activate(id, faulty);
          ProgressTwice(old(plugins), old(order), during, listed, plugins, order, faulty);
          if r.Err? {
            BlockedBefore(old(plugins), during, faulty, id);
            return;
          }
        }
        OrderIsActive(plugins, order, id);
        ListedFurther(old(plugins), registration, i, listed, order);
      }
      assert registration[..|registration|] == registration;
      AllActivated(old(plugins), plugins, registration, old(order), order, faulty);
      return Ok(());
    }

    /** `throwing` names the plugins whose `deactivate` callback throws; they are deactivated all the same. */
    method Deactivate(id: Id, throwing: set<Id>) returns (r: Result<()>)
      requires Valid()
      modifies this
      ensures Valid() && registration == old(registration)
      ensures r == DeactivationResult(old(plugins), id, throwing)
      ensures if Deactivates(old(plugins), id)
        then plugins == Stopped(old(plugins), id) && order == Without(old(order), id)
          && ran == old(ran) + Reversed(old(plugins)[id].disposers)
        else plugins == old(plugins) && order == old(order) && ran == old(ran)
      ensures r == Err(InvalidState) ==> id in old(plugins) && old(plugins)[id].state == Active
      ensures id in old(plugins) && old(plugins)[id].state == Active ==>
        (r == Err(InvalidState) <==> exists x :: x in old(plugins) && x != id && old(plugins)[x].state == Active && id in old(plugins)[x].dependencies)
      ensures id in old(plugins) && old(plugins)[id].state == Active && r != Err(InvalidState) ==>
        plugins == old(plugins)[id := old(plugins)[id].(state := Deactivated, disposers := [])]
    {
      if id !in plugins { return Err(NotFound); }
      if plugins[id].state != Active { return Ok(()); }
      if Needed(plugins, id) { return Err(InvalidState); }
      DeactivateKeeps(plugins, order, id);
      Dispose(id);
      plugins := plugins[id := plugins[id].(state := Deactivated)];
      order := Without(order, id);
      assert plugins == Stopped(old(plugins), id);
      return if id in throwing then Err(Thrown) else Ok(());
    }

    /** Works back through the registration order and stops at the first refusal or throw. */
    method DeactivateAll(throwing: set<Id>) returns (r: Result<()>)
      requires Valid()
      modifies this
      ensures Valid() && registration == old(registration)
      ensures r.Ok? <==> StopsCleanly(old(plugins), registration, throwing)
      ensures r.Ok? ==> InState(plugins, Active) == {}
    {
      OrderMakesActiveSetSound(plugins, order);
      var i: nat := |registration|;
      while i > 0
        invariant i <= |registration| && Valid() && registration == old(registration)
        invariant StoppedFrom(old(plugins), plugins, registration, i, throwing)
      {
        i := i - 1;
        RefusedIff(old(plugins), plugins, registration, i, throwing);
        assert registration[i] in Elements(registration);
        ghost var now := plugins;
        if plugins[registration[i]].state == Active {
          r := Deactivate(registration[i], throwing);
          if r.Err? { return; }
        }
        StopStep(old(plugins), now, registration, i, throwing);
      }
      assert registration[0..] == registration;
      return Ok(());
    }
  }

  lemma StillMarked(marked: Records, during: Records, id: Id)
    requires SamePlugins(marked, during) && InState(during, Activating) == InState(marked, Activating)
    requires id in marked && marked[id].state == Activating
    ensures during[id].dependencies == marked[id].dependencies && during[id].state == Activating
  {
    assert id in InState(during, Activating);
    assert during[id].dependencies == GraphOf(during)[id] == GraphOf(marked)[id];
  }

  // A shutdown that is refused.

  function AppBeforeBase(): Records {
    map["app" := Plugin(["base"], [], Registered, []), "base" := Plugin([], [], Registered, [])]
  }

  lemma NamesValid()
    ensures ValidName("app", 64) && ValidName("base", 64)
  {
    assert forall i :: 0 <= i < |"app"| ==> IsLetter("app"[i]);
    assert forall i :: 0 <= i < |"base"| ==> IsLetter("base"[i]);
  }

  lemma {:induction false} AppNotBlocked(trail: seq<Id>)
    ensures !(Blocks(AppBeforeBase(), {}, trail) && trail[0] == "app")
  {
    var plugins := AppBeforeBase();
    if trail != [] && IsTrail(GraphOf(plugins), trail) && trail[0] == "app" {
      if |trail| > 1 { assert DependsOn(GraphOf(plugins), trail[0], trail[1]); }
      assert |trail| > 2 ==> DependsOn(GraphOf(plugins), trail[1], trail[2]);
      assert |trail| <= 2 && |"app"| != |"base"|;
    }
  }

  lemma {:induction false} BaseRefuses(after: Records, order: seq<Id>)
    requires GraphOf(after) == GraphOf(AppBeforeBase()) && ActivationOrder(after, order) && "app" in order
    ensures !StopsCleanly(after, ["app", "base"], {})
  {
    assert |"app"| != |"base"|;
    assert GraphOf(after)["app"] == ["base"];
    assert DependsOn(GraphOf(after), "app", "base");
    assert "app" in Elements(order);
    assert ["app", "base"][..1] == ["app"];
    assert Refused(after, ["app", "base"], 1, {});
  }

  /**
   Registering "app" before "base", which it depends on: activating "app" activates both, and `deactivateAll` then fails
   at "base", which it reaches first.
   */
  method ReverseShutdownFails() returns (app: Result<()>, base: Result<()>, activated: Result<()>, stopped: Result<()>)
    ensures app.Ok? && base.Ok? && activated.Ok? && stopped.Err?
  {
    var registry := new PluginRegistry();
    NamesValid();
    app := registry.Register("app", true, ["base"], []);
    base := registry.Register("base", true, [], []);
    assert |"app"| != |"base"|;
    assert registry.plugins == AppBeforeBase();
    assert registry.registration == ["app", "base"];
    forall trail
      ensures !(Blocks(registry.plugins, {}, trail) && trail[0] == "app")
    {
      AppNotBlocked(trail);
    }
    activated := registry.Activate("app", {});
    BaseRefuses(registry.plugins, registry.order);
    stopped := registry.DeactivateAll({});
  }
}
