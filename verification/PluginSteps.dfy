/** Overlapping calls of `activate` and `deactivate`, from one await to the next (`plugin-registry.ts`). */
module PluginSteps {
  import opened Prelude
  import opened Dag
  import opened Plugins

  type States = map<Id, PluginState>

  /** Where one invocation of `activate` awaits: a dependency, the callback, or the disposers after a failure. */
  datatype Phase = Resolving | InCallback | Disposing

  /** `next` dependencies of the plugin have been activated by this invocation. */
  datatype Frame = Frame(id: Id, next: nat, phase: Phase)

  /** A call of `activate` with the invocations nested in it, innermost last, or of `deactivate` past its check. */
  datatype Call = Activation(stack: seq<Frame>) | Deactivation(id: Id) | Settled

  datatype Registry = Registry(states: States, calls: seq<Call>)

  datatype Event =
    | Activate(id: Id)
    | Advance(call: nat)
    | Return(call: nat, ok: bool)
    | Rethrow(call: nat)
    | Deactivate(id: Id)
    | Stop(call: nat)

  function Top(stack: seq<Frame>): Frame
    requires stack != []
  {
    stack[|stack| - 1]
  }

  predicate IsIn(states: States, id: Id, state: PluginState) {
    id in states && states[id] == state
  }

  /** Some other active plugin depends on this one. */
  ghost predicate Needed(g: Graph, states: States, id: Id) {
    exists x :: x != id && IsIn(states, x, Active) && DependsOn(g, x, id)
  }

  predicate AwaitsIn(r: Registry, c: nat, phase: Phase) {
    c < |r.calls| && r.calls[c].Activation? && r.calls[c].stack != [] && Top(r.calls[c].stack).phase == phase
  }

  predicate Stops(r: Registry, c: nat, id: Id) {
    c < |r.calls| && r.calls[c] == Deactivation(id)
  }

  ghost predicate Enabled(r: Registry, e: Event) {
    match e
    case Activate(_) => true
    case Deactivate(_) => true
    case Advance(c) => AwaitsIn(r, c, Resolving)
    case Return(c, _) => AwaitsIn(r, c, InCallback)
    case Rethrow(c) => AwaitsIn(r, c, Disposing)
    case Stop(c) => c < |r.calls| && r.calls[c].Deactivation?
  }

  function Retop(stack: seq<Frame>, frame: Frame): seq<Frame>
    requires stack != []
  {
    stack[|stack| - 1 := frame]
  }

  /** The innermost invocation throws, marks its plugin as failed and disposes of what it registered. */
  function Failing(r: Registry, c: nat): Registry
    requires c < |r.calls| && r.calls[c].Activation? && r.calls[c].stack != []
  {
    var stack := r.calls[c].stack;
    Registry(r.states[Top(stack).id := Failed], r.calls[c := Activation(Retop(stack, Top(stack).(phase := Disposing)))])
  }

  function Began(r: Registry, id: Id): Registry {
    if id !in r.states || r.states[id] == Active || r.states[id] == Activating then r
    else Registry(r.states[id := Activating], r.calls + [Activation([Frame(id, 0, Resolving)])])
  }

  /** The next dependency is found active, found missing or being activated, or is activated first; after the last comes the callback. */
  function Advanced(g: Graph, r: Registry, c: nat): Registry
    requires AwaitsIn(r, c, Resolving)
  {
    var stack := r.calls[c].stack;
    var top := Top(stack);
    if top.id !in g || top.next >= |g[top.id]| then r.(calls := r.calls[c := Activation(Retop(stack, top.(phase := InCallback)))])
    else
      var dependency := g[top.id][top.next];
      if dependency !in r.states || r.states[dependency] == Activating then Failing(r, c)
      else if r.states[dependency] == Active then r.(calls := r.calls[c := Activation(Retop(stack, top.(next := top.next + 1)))])
      else Registry(r.states[dependency := Activating], r.calls[c := Activation(stack + [Frame(dependency, 0, Resolving)])])
  }

  /** The invocation behind an inner one that succeeded goes on with its next dependency. */
  function Resumed(rest: seq<Frame>): Call {
    if rest == [] then Settled else Activation(Retop(rest, Top(rest).(next := Top(rest).next + 1)))
  }

  function Returned(r: Registry, c: nat, ok: bool): Registry
    requires AwaitsIn(r, c, InCallback)
  {
    var stack := r.calls[c].stack;
    if ok then Registry(r.states[Top(stack).id := Active], r.calls[c := Resumed(stack[..|stack| - 1])])
    else Failing(r, c)
  }

  /** The error reaches the invocation behind, if any. */
  function Rethrown(r: Registry, c: nat): Registry
    requires AwaitsIn(r, c, Disposing)
  {
    var rest := r.calls[c].stack[..|r.calls[c].stack| - 1];
    if rest == [] then r.(calls := r.calls[c := Settled]) else Failing(r.(calls := r.calls[c := Activation(rest)]), c)
  }

  ghost function Checked(g: Graph, r: Registry, id: Id): Registry {
    if IsIn(r.states, id, Active) && !Needed(g, r.states, id) then r.(calls := r.calls + [Deactivation(id)]) else r
  }

  ghost function After(g: Graph, r: Registry, e: Event): Registry
    requires Enabled(r, e)
  {
    match e
    case Activate(id) => Began(r, id)
    case Advance(c) => Advanced(g, r, c)
    case Return(c, ok) => Returned(r, c, ok)
    case Rethrow(c) => Rethrown(r, c)
    case Deactivate(id) => Checked(g, r, id)
    case Stop(c) => Registry(r.states[r.calls[c].id := Deactivated], r.calls[c := Settled])
  }

  /** An invocation that is through leaves its call, which is then over, or the one behind goes on, or fails with it. */
  lemma InnermostEnds(g: Graph, r: Registry, e: Event)
    requires Enabled(r, e) && (e.Rethrow? || (e.Return? && e.ok))
    ensures var s, stack := After(g, r, e), r.calls[e.call].stack;
      && |s.calls| == |r.calls| && (forall c :: 0 <= c < |s.calls| && c != e.call ==> s.calls[c] == r.calls[c])
      && (e.Return? ==> s.states == r.states[Top(stack).id := Active])
      && if |stack| == 1 then s.calls[e.call] == Settled && (e.Rethrow? ==> s.states == r.states)
         else
           var behind := stack[|stack| - 2];
           && s.calls[e.call] == Activation(stack[..|stack| - 2] + [if e.Rethrow? then behind.(phase := Disposing) else behind.(next := behind.next + 1)])
           && (e.Rethrow? ==> s.states == r.states[behind.id := Failed])
  {
  }

  function Initial(g: Graph): Registry {
    Registry(map id | id in g :: Registered, [])
  }

  ghost predicate StepAt(g: Graph, states: seq<Registry>, events: seq<Event>, i: nat)
    requires i < |events| && |states| == |events| + 1
  {
    Enabled(states[i], events[i]) && states[i + 1] == After(g, states[i], events[i])
  }

  ghost predicate IsRun(g: Graph, states: seq<Registry>, events: seq<Event>) {
    && |states| == |events| + 1 && states[0] == Initial(g)
    && forall i: nat {:trigger StepAt(g, states, events, i)} :: i < |events| ==> StepAt(g, states, events, i)
  }

  // What holds in every run.

  ghost predicate FrameShaped(g: Graph, stack: seq<Frame>, k: nat)
    requires k < |stack|
  {
    && stack[k].id in g && stack[k].next <= |g[stack[k].id]|
    && (stack[k].phase == InCallback ==> stack[k].next == |g[stack[k].id]|)
    && (k + 1 < |stack| ==> stack[k].phase == Resolving && stack[k].next < |g[stack[k].id]| && g[stack[k].id][stack[k].next] == stack[k + 1].id)
  }

  /** Each invocation awaits the activation of the dependency that the next one is for. */
  ghost predicate StackShaped(g: Graph, stack: seq<Frame>) {
    stack != [] && forall k: nat {:trigger FrameShaped(g, stack, k)} :: k < |stack| ==> FrameShaped(g, stack, k)
  }

  ghost predicate CallShaped(g: Graph, call: Call) {
    match call
    case Activation(stack) => StackShaped(g, stack)
    case Deactivation(id) => id in g
    case Settled => true
  }

  /** The k-th invocation of this call is for this plugin and has not failed. */
  ghost predicate Runs(call: Call, k: nat, id: Id) {
    call.Activation? && k < |call.stack| && call.stack[k].id == id && call.stack[k].phase != Disposing
  }

  ghost predicate Activates(call: Call, id: Id) {
    exists k :: Runs(call, k, id)
  }

  ghost predicate Underway(r: Registry, id: Id) {
    exists c :: 0 <= c < |r.calls| && Activates(r.calls[c], id)
  }

  ghost predicate Shaped(g: Graph, r: Registry) {
    && r.states.Keys == g.Keys
    && (forall call :: call in r.calls ==> CallShaped(g, call))
    && forall id :: IsIn(r.states, id, Activating) ==> Underway(r, id)
  }

  lemma RetopShaped(g: Graph, stack: seq<Frame>, frame: Frame)
    requires StackShaped(g, stack) && frame.id == Top(stack).id && frame.id in g && frame.next <= |g[frame.id]|
    requires frame.phase == InCallback ==> frame.next == |g[frame.id]|
    ensures StackShaped(g, Retop(stack, frame))
  {
    var changed := Retop(stack, frame);
    assert FrameShaped(g, stack, |stack| - 1);
    forall k: nat | k < |changed|
      ensures FrameShaped(g, changed, k)
    {
      assert FrameShaped(g, stack, k);
    }
  }

  lemma PushShaped(g: Graph, stack: seq<Frame>)
    requires StackShaped(g, stack) && Top(stack).phase == Resolving && Top(stack).id in g && Top(stack).next < |g[Top(stack).id]|
    requires g[Top(stack).id][Top(stack).next] in g
    ensures StackShaped(g, stack + [Frame(g[Top(stack).id][Top(stack).next], 0, Resolving)])
  {
    var longer := stack + [Frame(g[Top(stack).id][Top(stack).next], 0, Resolving)];
    forall k: nat | k < |longer|
      ensures FrameShaped(g, longer, k)
    {
      if k < |stack| { assert FrameShaped(g, stack, k); }
    }
  }

  lemma PopShaped(g: Graph, stack: seq<Frame>)
    requires StackShaped(g, stack) && |stack| >= 2
    ensures StackShaped(g, stack[..|stack| - 1]) && FrameShaped(g, stack, |stack| - 2)
  {
    var rest := stack[..|stack| - 1];
    forall k: nat | k < |rest|
      ensures FrameShaped(g, rest, k)
    {
      assert FrameShaped(g, stack, k);
    }
    assert FrameShaped(g, stack, |stack| - 2);
  }

  /** One call goes on, and the states change accordingly. */
  lemma CallChanges(g: Graph, r: Registry, states: States, c: nat, call: Call)
    requires Shaped(g, r) && c < |r.calls| && CallShaped(g, call) && states.Keys == g.Keys
    requires forall id :: IsIn(states, id, Activating) ==>
      Activates(call, id) || (IsIn(r.states, id, Activating) && !Activates(r.calls[c], id))
    ensures Shaped(g, Registry(states, r.calls[c := call]))
  {
    var after := Registry(states, r.calls[c := call]);
    forall id | IsIn(states, id, Activating)
      ensures Underway(after, id)
    {
      if Activates(call, id) {
        assert Activates(after.calls[c], id);
      } else {
        var j :| 0 <= j < |r.calls| && Activates(r.calls[j], id);
        assert Activates(after.calls[j], id);
      }
    }
  }

  lemma CallAdded(g: Graph, r: Registry, states: States, call: Call)
    requires Shaped(g, r) && CallShaped(g, call) && states.Keys == g.Keys
    requires forall id :: IsIn(states, id, Activating) ==> Activates(call, id) || IsIn(r.states, id, Activating)
    ensures Shaped(g, Registry(states, r.calls + [call]))
  {
    var after := Registry(states, r.calls + [call]);
    forall id | IsIn(states, id, Activating)
      ensures Underway(after, id)
    {
      if Activates(call, id) {
        assert Activates(after.calls[|r.calls|], id);
      } else {
        var j :| 0 <= j < |r.calls| && Activates(r.calls[j], id);
        assert Activates(after.calls[j], id);
      }
    }
  }

  /** Changing the innermost invocation leaves the others; adding one leaves all. */
  lemma RetopActivates(stack: seq<Frame>, frame: Frame, id: Id)
    requires stack != [] && frame.id == Top(stack).id
    ensures Activates(Activation(Retop(stack, frame)), id) ==> Activates(Activation(stack), id) || (id == frame.id && frame.phase != Disposing)
    ensures Activates(Activation(stack), id) ==>
      Activates(Activation(Retop(stack, frame)), id) || (id == frame.id && frame.phase == Disposing)
  {
    var changed := Retop(stack, frame);
    if k :| Runs(Activation(stack), k, id) {
      assert Runs(Activation(changed), k, id) || k == |stack| - 1;
      assert k == |stack| - 1 && frame.phase != Disposing ==> Runs(Activation(changed), k, id);
    }
    if k :| Runs(Activation(changed), k, id) {
      assert Runs(Activation(stack), k, id) || k == |stack| - 1;
    }
  }

  lemma PushActivates(stack: seq<Frame>, frame: Frame, id: Id)
    ensures Activates(Activation(stack), id) ==> Activates(Activation(stack + [frame]), id)
    ensures frame.phase != Disposing ==> Activates(Activation(stack + [frame]), frame.id)
  {
    if k :| Runs(Activation(stack), k, id) {
      assert Runs(Activation(stack + [frame]), k, id);
    }
    if frame.phase != Disposing {
      assert Runs(Activation(stack + [frame]), |stack|, frame.id);
    }
  }

  lemma PopActivates(stack: seq<Frame>, id: Id)
    requires stack != []
    ensures Activates(Activation(stack), id) ==>
      Activates(Activation(stack[..|stack| - 1]), id) || (id == Top(stack).id && Top(stack).phase != Disposing)
  {
    if k :| Runs(Activation(stack), k, id) {
      assert Runs(Activation(stack[..|stack| - 1]), k, id) || k == |stack| - 1;
    }
  }

  lemma FailingShaped(g: Graph, r: Registry, c: nat)
    requires Shaped(g, r) && c < |r.calls| && r.calls[c].Activation?
    ensures r.calls[c].stack != [] && Shaped(g, Failing(r, c))
  {
    assert CallShaped(g, r.calls[c]);
    var stack := r.calls[c].stack;
    var top := Top(stack);
    assert FrameShaped(g, stack, |stack| - 1);
    RetopShaped(g, stack, top.(phase := Disposing));
    var states := r.states[top.id := Failed];
    forall id | IsIn(states, id, Activating)
      ensures Activates(Activation(Retop(stack, top.(phase := Disposing))), id) || (IsIn(r.states, id, Activating) && !Activates(r.calls[c], id))
    {
      RetopActivates(stack, top.(phase := Disposing), id);
    }
    CallChanges(g, r, states, c, Activation(Retop(stack, top.(phase := Disposing))));
  }

  lemma AdvancedShaped(g: Graph, r: Registry, c: nat)
    requires Shaped(g, r) && AwaitsIn(r, c, Resolving)
    ensures Shaped(g, Advanced(g, r, c))
  {
    assert CallShaped(g, r.calls[c]);
    var stack := r.calls[c].stack;
    var top := Top(stack);
    assert FrameShaped(g, stack, |stack| - 1);
    if top.next < |g[top.id]| && g[top.id][top.next] !in r.states {
      FailingShaped(g, r, c);
    } else if top.next < |g[top.id]| && r.states[g[top.id][top.next]] == Activating {
      FailingShaped(g, r, c);
    } else if top.next < |g[top.id]| && r.states[g[top.id][top.next]] != Active {
      var dependency := g[top.id][top.next];
      PushShaped(g, stack);
      forall id { PushActivates(stack, Frame(dependency, 0, Resolving), id); }
      CallChanges(g, r, r.states[dependency := Activating], c, Activation(stack + [Frame(dependency, 0, Resolving)]));
    } else {
      var frame := if top.next < |g[top.id]| then top.(next := top.next + 1) else top.(phase := InCallback);
      RetopShaped(g, stack, frame);
      forall id { RetopActivates(stack, frame, id); }
      CallChanges(g, r, r.states, c, Activation(Retop(stack, frame)));
    }
  }

  lemma ReturnedShaped(g: Graph, r: Registry, c: nat, ok: bool)
    requires Shaped(g, r) && AwaitsIn(r, c, InCallback)
    ensures Shaped(g, Returned(r, c, ok))
  {
    assert CallShaped(g, r.calls[c]);
    var stack := r.calls[c].stack;
    assert FrameShaped(g, stack, |stack| - 1);
    if !ok {
      FailingShaped(g, r, c);
    } else {
      var rest := stack[..|stack| - 1];
      var states := r.states[Top(stack).id := Active];
      if rest != [] {
        PopShaped(g, stack);
        RetopShaped(g, rest, Top(rest).(next := Top(rest).next + 1));
      }
      forall id | IsIn(states, id, Activating)
        ensures Activates(Resumed(rest), id) || (IsIn(r.states, id, Activating) && !Activates(r.calls[c], id))
      {
        PopActivates(stack, id);
        if rest != [] { RetopActivates(rest, Top(rest).(next := Top(rest).next + 1), id); }
      }
      CallChanges(g, r, states, c, Resumed(rest));
    }
  }

  lemma RethrownShaped(g: Graph, r: Registry, c: nat)
    requires Shaped(g, r) && AwaitsIn(r, c, Disposing)
    ensures Shaped(g, Rethrown(r, c))
  {
    assert CallShaped(g, r.calls[c]);
    var stack := r.calls[c].stack;
    var rest := stack[..|stack| - 1];
    var call := if rest == [] then Settled else Activation(rest);
    if rest != [] { PopShaped(g, stack); }
    forall id { PopActivates(stack, id); }
    CallChanges(g, r, r.states, c, call);
    if rest != [] { FailingShaped(g, r.(calls := r.calls[c := call]), c); }
  }

  lemma StepShaped(g: Graph, r: Registry, e: Event)
    requires Shaped(g, r) && Enabled(r, e)
    ensures Shaped(g, After(g, r, e))
  {
    match e
    case Activate(id) =>
      if After(g, r, e) != r {
        var call := Activation([Frame(id, 0, Resolving)]);
        assert FrameShaped(g, call.stack, 0);
        assert Runs(call, 0, id);
        CallAdded(g, r, r.states[id := Activating], call);
      }
    case Advance(c) => AdvancedShaped(g, r, c);
    case Return(c, ok) => ReturnedShaped(g, r, c, ok);
    case Rethrow(c) => RethrownShaped(g, r, c);
    case Deactivate(id) =>
      if After(g, r, e) != r { CallAdded(g, r, r.states, Deactivation(id)); }
    case Stop(c) =>
      assert CallShaped(g, r.calls[c]);
      CallChanges(g, r, r.states[r.calls[c].id := Deactivated], c, Settled);
  }

  lemma {:induction false} RunsShaped(g: Graph, states: seq<Registry>, events: seq<Event>, n: nat)
    requires IsRun(g, states, events) && n < |states|
    ensures Shaped(g, states[n])
  {
    if n == 0 {
    } else {
      RunsShaped(g, states, events, n - 1);
      assert StepAt(g, states, events, n - 1);
      StepShaped(g, states[n - 1], events[n - 1]);
    }
  }

  // What is reported as a dependency cycle.

  /** The plugins of a call, from one of its invocations to the dependency the innermost one asks for. */
  ghost function Loop(stack: seq<Frame>, from: nat, dependency: Id): seq<Id>
    requires from < |stack|
  {
    seq(|stack| - from, i requires 0 <= i < |stack| - from => stack[from + i].id) + [dependency]
  }

  lemma LoopIsCycle(g: Graph, stack: seq<Frame>, from: nat)
    requires StackShaped(g, stack) && from < |stack| && Top(stack).id in g && Top(stack).next < |g[Top(stack).id]|
    requires stack[from].id == g[Top(stack).id][Top(stack).next]
    ensures IsCycle(g, Loop(stack, from, stack[from].id))
  {
    var loop := Loop(stack, from, stack[from].id);
    forall i | 0 <= i < |loop| - 1
      ensures DependsOn(g, loop[i], loop[i + 1])
    {
      assert FrameShaped(g, stack, from + i);
    }
  }

  /** The dependency that a call asks for next. */
  ghost predicate AsksFor(g: Graph, r: Registry, c: nat, dependency: Id) {
    AwaitsIn(r, c, Resolving) && var top := Top(r.calls[c].stack); top.id in g && top.next < |g[top.id]| && g[top.id][top.next] == dependency
  }

  /** Without cycles, a registered dependency is refused exactly while another call is activating it. */
  lemma {:induction false} RefusedIff(g: Graph, states: seq<Registry>, events: seq<Event>, n: nat, c: nat, dependency: Id)
    requires IsRun(g, states, events) && n < |states| && !HasCycle(g)
    requires AsksFor(g, states[n], c, dependency) && dependency in g
    ensures Advanced(g, states[n], c) == Failing(states[n], c) <==>
      IsIn(states[n].states, dependency, Activating) && exists other :: 0 <= other < |states[n].calls| && other != c && Activates(states[n].calls[other], dependency)
  {
    var r := states[n];
    var stack := r.calls[c].stack;
    RunsShaped(g, states, events, n);
    assert CallShaped(g, r.calls[c]);
    if k :| Runs(r.calls[c], k, dependency) { LoopIsCycle(g, stack, k); }
    assert Top(Failing(r, c).calls[c].stack).phase == Disposing;
  }

  // When the active set stays closed.

  /** Whatever an active plugin depends on is active. */
  ghost predicate ClosedSet(g: Graph, states: States) {
    forall v, d :: IsIn(states, v, Active) && DependsOn(g, v, d) ==> IsIn(states, d, Active)
  }

  /** The plugin that a step takes out of the active set or leaves outside it. */
  function Leaving(g: Graph, r: Registry, e: Event): Option<Id>
    requires Enabled(r, e)
  {
    match e
    case Stop(c) => Some(r.calls[c].id)
    case Return(c, ok) => if ok then None else Some(Top(r.calls[c].stack).id)
    case Rethrow(c) => var rest := r.calls[c].stack[..|r.calls[c].stack| - 1]; if rest == [] then None else Some(Top(rest).id)
    case Advance(c) => if Advanced(g, r, c) == Failing(r, c) then Some(Top(r.calls[c].stack).id) else None
    case _ => None
  }

  /** A needed plugin leaves the active set, or a plugin joins it without one it depends on. */
  ghost predicate Breaks(g: Graph, r: Registry, e: Event)
    requires Enabled(r, e)
  {
    var leaving := Leaving(g, r, e);
    if leaving.Some? then Needed(g, r.states, leaving.value)
    else e.Return? && var v := Top(r.calls[e.call].stack).id; exists d :: d != v && DependsOn(g, v, d) && !IsIn(r.states, d, Active)
  }

  lemma LeaveKeepsClosedIff(g: Graph, states: States, id: Id, state: PluginState)
    requires ClosedSet(g, states) && state != Active
    ensures ClosedSet(g, states[id := state]) <==> !Needed(g, states, id)
  {
    var after := states[id := state];
    if x :| x != id && IsIn(states, x, Active) && DependsOn(g, x, id) {
      assert IsIn(after, x, Active) && !IsIn(after, id, Active);
    } else {
      forall v, d | IsIn(after, v, Active) && DependsOn(g, v, d)
        ensures IsIn(after, d, Active)
      {
        assert IsIn(states, v, Active) && IsIn(states, d, Active);
      }
    }
  }

  lemma JoinKeepsClosedIff(g: Graph, states: States, v: Id)
    requires ClosedSet(g, states)
    ensures ClosedSet(g, states[v := Active]) <==> !exists d :: d != v && DependsOn(g, v, d) && !IsIn(states, d, Active)
  {
    var after := states[v := Active];
    if d :| d != v && DependsOn(g, v, d) && !IsIn(states, d, Active) {
      assert IsIn(after, v, Active) && !IsIn(after, d, Active);
    } else {
      forall x, d | IsIn(after, x, Active) && DependsOn(g, x, d)
        ensures IsIn(after, d, Active)
      {
        assert x != v ==> IsIn(states, x, Active) && IsIn(states, d, Active);
      }
    }
  }

  /** A step from a closed active set leaves it open exactly if it takes out a needed plugin or puts in one that lacks a dependency. */
  lemma {:induction false} StepBreaksIff(g: Graph, r: Registry, e: Event)
    requires Shaped(g, r) && Enabled(r, e) && ClosedSet(g, r.states)
    ensures ClosedSet(g, After(g, r, e).states) <==> !Breaks(g, r, e)
  {
    var leaving := Leaving(g, r, e);
    if leaving.Some? {
      var state := if e.Stop? then Deactivated else Failed;
      assert After(g, r, e).states == r.states[leaving.value := state];
      LeaveKeepsClosedIff(g, r.states, leaving.value, state);
    } else if e.Return? {
      JoinKeepsClosedIff(g, r.states, Top(r.calls[e.call].stack).id);
    } else if After(g, r, e).states != r.states {
      assert exists id :: id in r.states && r.states[id] != Active && After(g, r, e).states == r.states[id := Activating];
      var id :| id in r.states && r.states[id] != Active && After(g, r, e).states == r.states[id := Activating];
      assert Needed(g, r.states, id) ==> IsIn(r.states, id, Active);
      LeaveKeepsClosedIff(g, r.states, id, Activating);
    }
  }

  /** The active set is closed all through a run exactly if no step breaks it. */
  lemma {:induction false} AlwaysClosedIff(g: Graph, states: seq<Registry>, events: seq<Event>)
    requires IsRun(g, states, events)
    ensures (forall i: nat {:trigger states[i]} :: i < |states| ==> ClosedSet(g, states[i].states)) <==>
            (forall i: nat {:trigger StepAt(g, states, events, i)} :: i < |events| ==> StepAt(g, states, events, i) && !Breaks(g, states[i], events[i]))
  {
    if forall i: nat {:trigger StepAt(g, states, events, i)} :: i < |events| ==> StepAt(g, states, events, i) && !Breaks(g, states[i], events[i]) {
      forall i: nat | i < |states|
        ensures ClosedSet(g, states[i].states)
      {
        ClosedUntil(g, states, events, i);
      }
    } else {
      var i: nat :| i < |events| && !(StepAt(g, states, events, i) && !Breaks(g, states[i], events[i]));
      assert StepAt(g, states, events, i);
      RunsShaped(g, states, events, i);
      if ClosedSet(g, states[i].states) { StepBreaksIff(g, states[i], events[i]); }
    }
  }

  lemma {:induction false} ClosedUntil(g: Graph, states: seq<Registry>, events: seq<Event>, n: nat)
    requires IsRun(g, states, events) && n < |states|
    requires forall i: nat {:trigger StepAt(g, states, events, i)} :: i < |events| ==> StepAt(g, states, events, i) && !Breaks(g, states[i], events[i])
    ensures ClosedSet(g, states[n].states)
  {
    if n == 0 {
    } else {
      ClosedUntil(g, states, events, n - 1);
      RunsShaped(g, states, events, n - 1);
      assert StepAt(g, states, events, n - 1);
      StepBreaksIff(g, states[n - 1], events[n - 1]);
    }
  }

  /** No plugin is being stopped while it, or one that depends on it, is being activated. */
  ghost predicate Separate(g: Graph, r: Registry) {
    forall c, d, v :: Stops(r, c, d) && Underway(r, v) ==> v != d && !DependsOn(g, v, d)
  }

  /** An invocation has marked its plugin, and the dependencies it is through with are active. */
  ghost predicate FrameSafe(g: Graph, states: States, frame: Frame) {
    && IsIn(states, frame.id, Activating) && frame.id in g && frame.next <= |g[frame.id]|
    && forall i :: 0 <= i < frame.next ==> IsIn(states, g[frame.id][i], Active)
  }

  ghost predicate CallSafe(g: Graph, states: States, call: Call) {
    call.Activation? ==> forall k :: 0 <= k < |call.stack| && call.stack[k].phase != Disposing ==> FrameSafe(g, states, call.stack[k])
  }

  /** No plugin is being activated twice. */
  ghost predicate OnceInCall(call: Call) {
    forall j, k, id :: Runs(call, j, id) && Runs(call, k, id) ==> j == k
  }

  ghost predicate OnceEach(r: Registry) {
    && (forall call :: call in r.calls ==> OnceInCall(call))
    && forall c, j, id :: 0 <= c < |r.calls| && 0 <= j < |r.calls| && Activates(r.calls[c], id) && Activates(r.calls[j], id) ==> c == j
  }

  ghost predicate Guarded(g: Graph, r: Registry) {
    && ClosedSet(g, r.states) && OnceEach(r)
    && (forall call :: call in r.calls ==> CallSafe(g, r.states, call))
    && forall c, d :: Stops(r, c, d) ==> !Needed(g, r.states, d)
  }

  /** The call neither activates the plugin nor, if that leaves the active set, anything that depends on it. */
  ghost predicate Unconcerned(g: Graph, states: States, call: Call, id: Id, state: PluginState) {
    forall v :: Activates(call, v) ==> v != id && (state == Active || !IsIn(states, id, Active) || !DependsOn(g, v, id))
  }

  /** A plugin changes its state; calls that neither activate it nor count on it stay safe. */
  lemma StaysSafe(g: Graph, states: States, id: Id, state: PluginState, call: Call)
    requires CallSafe(g, states, call) && Unconcerned(g, states, call, id, state)
    ensures CallSafe(g, states[id := state], call)
  {
    if call.Activation? {
      forall k | 0 <= k < |call.stack| && call.stack[k].phase != Disposing
        ensures FrameSafe(g, states[id := state], call.stack[k])
      {
        var frame := call.stack[k];
        assert Runs(call, k, frame.id) && Activates(call, frame.id);
        assert FrameSafe(g, states, frame);
        forall i | 0 <= i < frame.next
          ensures IsIn(states[id := state], g[frame.id][i], Active)
        {
          assert IsIn(states, g[frame.id][i], Active) && DependsOn(g, frame.id, g[frame.id][i]);
        }
      }
    }
  }

  /** One plugin changes its state, by a step of one call; the other calls stay safe. */
  lemma OthersSafe(g: Graph, r: Registry, c: nat, id: Id, state: PluginState)
    requires Guarded(g, r)
    requires forall j :: 0 <= j < |r.calls| && j != c ==> Unconcerned(g, r.states, r.calls[j], id, state)
    requires state == Active ==> forall j, d :: Stops(r, j, d) && j != c ==> d == id || !DependsOn(g, id, d)
    ensures forall j :: 0 <= j < |r.calls| && j != c ==> CallSafe(g, r.states[id := state], r.calls[j])
    ensures forall j, d :: Stops(r, j, d) && j != c ==> !Needed(g, r.states[id := state], d)
  {
    var states := r.states[id := state];
    forall j | 0 <= j < |r.calls| && j != c
      ensures CallSafe(g, states, r.calls[j])
    {
      assert r.calls[j] in r.calls;
      StaysSafe(g, r.states, id, state, r.calls[j]);
    }
    forall j, d | Stops(r, j, d) && j != c
      ensures !Needed(g, states, d)
    {
      forall x | x != d && IsIn(states, x, Active)
        ensures !DependsOn(g, x, d)
      {
        assert x != id ==> IsIn(r.states, x, Active);
      }
    }
  }

  /** One call goes on. */
  lemma GuardedChange(g: Graph, r: Registry, states: States, c: nat, call: Call)
    requires Guarded(g, r) && c < |r.calls| && !call.Deactivation?
    requires ClosedSet(g, states) && CallSafe(g, states, call) && OnceInCall(call)
    requires forall v :: Activates(call, v) ==> Activates(r.calls[c], v) || !Underway(r, v)
    requires forall j :: 0 <= j < |r.calls| && j != c ==> CallSafe(g, states, r.calls[j])
    requires forall j, d :: Stops(r, j, d) && j != c ==> !Needed(g, states, d)
    ensures Guarded(g, Registry(states, r.calls[c := call]))
  {
    var after := Registry(states, r.calls[c := call]);
    forall j, k, v | 0 <= j < |after.calls| && 0 <= k < |after.calls| && Activates(after.calls[j], v) && Activates(after.calls[k], v)
      ensures j == k
    {
      assert j != c ==> Activates(r.calls[j], v);
      assert k != c ==> Activates(r.calls[k], v);
    }
    forall j: nat, d | Stops(after, j, d)
      ensures !Needed(g, states, d)
    {
      assert Stops(r, j, d) && j != c;
    }
  }

  lemma PopSafe(g: Graph, states: States, stack: seq<Frame>)
    requires stack != [] && CallSafe(g, states, Activation(stack)) && OnceInCall(Activation(stack))
    ensures CallSafe(g, states, Activation(stack[..|stack| - 1])) && OnceInCall(Activation(stack[..|stack| - 1]))
    ensures forall v :: Activates(Activation(stack[..|stack| - 1]), v) ==>
      Activates(Activation(stack), v) && (Top(stack).phase != Disposing ==> v != Top(stack).id)
  {
    var rest := stack[..|stack| - 1];
    forall k, v | Runs(Activation(rest), k, v)
      ensures Runs(Activation(stack), k, v)
    {
    }
    forall v | Activates(Activation(rest), v)
      ensures Activates(Activation(stack), v) && (Top(stack).phase != Disposing ==> v != Top(stack).id)
    {
      var k :| Runs(Activation(rest), k, v);
      assert Runs(Activation(stack), k, v);
      assert Top(stack).phase != Disposing ==> Runs(Activation(stack), |stack| - 1, Top(stack).id);
    }
  }

  /** A safe frame on top of safe ones. */
  lemma PushSafe(g: Graph, states: States, stack: seq<Frame>, frame: Frame)
    requires CallSafe(g, states, Activation(stack)) && OnceInCall(Activation(stack))
    requires frame.phase != Disposing ==> FrameSafe(g, states, frame) && !Activates(Activation(stack), frame.id)
    ensures CallSafe(g, states, Activation(stack + [frame])) && OnceInCall(Activation(stack + [frame]))
    ensures forall v :: Activates(Activation(stack + [frame]), v) ==> Activates(Activation(stack), v) || (v == frame.id && frame.phase != Disposing)
  {
    var longer := stack + [frame];
    forall k, v | Runs(Activation(longer), k, v)
      ensures Runs(Activation(stack), k, v) || (k == |stack| && v == frame.id && frame.phase != Disposing)
    {
    }
    forall j: nat, k: nat, v | Runs(Activation(longer), j, v) && Runs(Activation(longer), k, v)
      ensures j == k
    {
      assert j < |stack| ==> Activates(Activation(stack), v);
      assert k < |stack| ==> Activates(Activation(stack), v);
    }
  }

  lemma RetopIsPush(stack: seq<Frame>, frame: Frame)
    requires stack != []
    ensures Retop(stack, frame) == stack[..|stack| - 1] + [frame]
  {
  }

  lemma UnderwayMarked(g: Graph, r: Registry, id: Id)
    requires Guarded(g, r) && Underway(r, id)
    ensures IsIn(r.states, id, Activating)
  {
    var c :| 0 <= c < |r.calls| && Activates(r.calls[c], id);
    var k: nat :| Runs(r.calls[c], k, id);
    assert r.calls[c] in r.calls && CallSafe(g, r.states, r.calls[c]);
    assert FrameSafe(g, r.states, r.calls[c].stack[k]);
  }

  /** While a plugin is being activated by one call, the other calls do not depend on its not being active. */
  lemma OthersUnconcerned(g: Graph, r: Registry, c: nat, id: Id, state: PluginState)
    requires Guarded(g, r) && c < |r.calls| && Activates(r.calls[c], id)
    ensures forall j :: 0 <= j < |r.calls| && j != c ==> Unconcerned(g, r.states, r.calls[j], id, state)
    ensures IsIn(r.states, id, Activating)
  {
    UnderwayMarked(g, r, id);
  }

  lemma TopRuns(stack: seq<Frame>)
    requires stack != [] && Top(stack).phase != Disposing
    ensures Activates(Activation(stack), Top(stack).id)
  {
    assert Runs(Activation(stack), |stack| - 1, Top(stack).id);
  }

  lemma FailingGuarded(g: Graph, r: Registry, c: nat)
    requires Guarded(g, r) && c < |r.calls| && r.calls[c].Activation? && r.calls[c].stack != [] && Top(r.calls[c].stack).phase != Disposing
    ensures Guarded(g, Failing(r, c))
  {
    var stack := r.calls[c].stack;
    var top := Top(stack);
    var front, frame := stack[..|stack| - 1], top.(phase := Disposing);
    assert r.calls[c] in r.calls;
    TopRuns(stack);
    OthersUnconcerned(g, r, c, top.id, Failed);
    OthersSafe(g, r, c, top.id, Failed);
    assert Needed(g, r.states, top.id) ==> IsIn(r.states, top.id, Active);
    LeaveKeepsClosedIff(g, r.states, top.id, Failed);
    PopSafe(g, r.states, stack);
    StaysSafe(g, r.states, top.id, Failed, Activation(front));
    PushSafe(g, r.states[top.id := Failed], front, frame);
    RetopIsPush(stack, frame);
    GuardedChange(g, r, r.states[top.id := Failed], c, Activation(Retop(stack, frame)));
  }

  /** The innermost invocation gets further. */
  lemma FurtherGuarded(g: Graph, r: Registry, c: nat, frame: Frame)
    requires Guarded(g, r) && AwaitsIn(r, c, Resolving)
    requires frame.id == Top(r.calls[c].stack).id && frame.phase != Disposing && FrameSafe(g, r.states, frame)
    ensures Guarded(g, r.(calls := r.calls[c := Activation(Retop(r.calls[c].stack, frame))]))
  {
    var stack := r.calls[c].stack;
    assert r.calls[c] in r.calls;
    TopRuns(stack);
    PopSafe(g, r.states, stack);
    PushSafe(g, r.states, stack[..|stack| - 1], frame);
    RetopIsPush(stack, frame);
    GuardedChange(g, r, r.states, c, Activation(Retop(stack, frame)));
  }

  lemma NestedGuarded(g: Graph, r: Registry, c: nat, dependency: Id)
    requires Guarded(g, r) && AwaitsIn(r, c, Resolving) && dependency in g
    requires dependency in r.states && r.states[dependency] != Active && r.states[dependency] != Activating
    ensures Guarded(g, Registry(r.states[dependency := Activating], r.calls[c := Activation(r.calls[c].stack + [Frame(dependency, 0, Resolving)])]))
  {
    var stack, states, frame := r.calls[c].stack, r.states[dependency := Activating], Frame(dependency, 0, Resolving);
    NewGuarded(g, r, dependency);
    assert r.calls[c] in r.calls;
    OthersSafe(g, r, c, dependency, Activating);
    StaysSafe(g, r.states, dependency, Activating, r.calls[c]);
    PushSafe(g, states, stack, frame);
    GuardedChange(g, r, states, c, Activation(stack + [frame]));
  }

  /** Marking an inactive plugin concerns no call. */
  lemma NewGuarded(g: Graph, r: Registry, id: Id)
    requires Guarded(g, r) && id in r.states && r.states[id] != Active && r.states[id] != Activating
    ensures !Underway(r, id) && ClosedSet(g, r.states[id := Activating])
    ensures forall j :: 0 <= j < |r.calls| ==> Unconcerned(g, r.states, r.calls[j], id, Activating)
  {
    if Underway(r, id) { UnderwayMarked(g, r, id); }
    assert Needed(g, r.states, id) ==> IsIn(r.states, id, Active);
    LeaveKeepsClosedIff(g, r.states, id, Activating);
  }

  lemma AdvancedGuarded(g: Graph, r: Registry, c: nat)
    requires Shaped(g, r) && Guarded(g, r) && AwaitsIn(r, c, Resolving)
    ensures Guarded(g, Advanced(g, r, c))
  {
    assert r.calls[c] in r.calls && CallShaped(g, r.calls[c]);
    var stack := r.calls[c].stack;
    var top := Top(stack);
    assert FrameSafe(g, r.states, top);
    if top.next >= |g[top.id]| {
      FurtherGuarded(g, r, c, top.(phase := InCallback));
    } else {
      var dependency := g[top.id][top.next];
      if dependency !in r.states || r.states[dependency] == Activating {
        FailingGuarded(g, r, c);
      } else if r.states[dependency] == Active {
        FurtherGuarded(g, r, c, top.(next := top.next + 1));
      } else {
        NestedGuarded(g, r, c, dependency);
      }
    }
  }

  /** The frame behind a finished one counts its dependency as done. */
  lemma ResumedSafe(g: Graph, states: States, stack: seq<Frame>, rest: seq<Frame>)
    requires StackShaped(g, stack) && Top(stack).phase != Disposing && IsIn(states, Top(stack).id, Active) && rest == stack[..|stack| - 1]
    requires CallSafe(g, states, Activation(rest)) && OnceInCall(Activation(rest))
    ensures CallSafe(g, states, Resumed(rest)) && OnceInCall(Resumed(rest))
    ensures forall v :: Activates(Resumed(rest), v) ==> Activates(Activation(rest), v)
  {
    if rest != [] {
      var frame := Top(rest).(next := Top(rest).next + 1);
      assert FrameShaped(g, stack, |stack| - 2);
      assert FrameSafe(g, states, Top(rest));
      TopRuns(rest);
      PopSafe(g, states, rest);
      PushSafe(g, states, rest[..|rest| - 1], frame);
      RetopIsPush(rest, frame);
    }
  }

  lemma ReturnedGuarded(g: Graph, r: Registry, c: nat, ok: bool)
    requires Shaped(g, r) && Guarded(g, r) && Separate(g, r) && AwaitsIn(r, c, InCallback)
    ensures Guarded(g, Returned(r, c, ok))
  {
    var stack := r.calls[c].stack;
    var v, rest := Top(stack).id, stack[..|stack| - 1];
    assert r.calls[c] in r.calls && CallShaped(g, r.calls[c]) && FrameShaped(g, stack, |stack| - 1);
    if !ok {
      FailingGuarded(g, r, c);
    } else {
      TopRuns(stack);
      assert Underway(r, v);
      assert FrameSafe(g, r.states, Top(stack));
      JoinKeepsClosedIff(g, r.states, v);
      OthersUnconcerned(g, r, c, v, Active);
      OthersSafe(g, r, c, v, Active);
      PopSafe(g, r.states, stack);
      StaysSafe(g, r.states, v, Active, Activation(rest));
      ResumedSafe(g, r.states[v := Active], stack, rest);
      GuardedChange(g, r, r.states[v := Active], c, Resumed(rest));
    }
  }

  lemma RethrownGuarded(g: Graph, r: Registry, c: nat)
    requires Shaped(g, r) && Guarded(g, r) && AwaitsIn(r, c, Disposing)
    ensures Guarded(g, Rethrown(r, c))
  {
    var stack := r.calls[c].stack;
    var rest := stack[..|stack| - 1];
    var call := if rest == [] then Settled else Activation(rest);
    assert r.calls[c] in r.calls && CallShaped(g, r.calls[c]);
    PopSafe(g, r.states, stack);
    GuardedChange(g, r, r.states, c, call);
    if rest != [] {
      assert FrameShaped(g, stack, |stack| - 2);
      FailingGuarded(g, r.(calls := r.calls[c := call]), c);
    }
  }

  lemma StoppedGuarded(g: Graph, r: Registry, c: nat, id: Id)
    requires Guarded(g, r) && Separate(g, r) && Stops(r, c, id)
    ensures Guarded(g, Registry(r.states[id := Deactivated], r.calls[c := Settled]))
  {
    forall j | 0 <= j < |r.calls|
      ensures Unconcerned(g, r.states, r.calls[j], id, Deactivated)
    {
      assert forall v :: Activates(r.calls[j], v) ==> Underway(r, v);
    }
    LeaveKeepsClosedIff(g, r.states, id, Deactivated);
    OthersSafe(g, r, c, id, Deactivated);
    GuardedChange(g, r, r.states[id := Deactivated], c, Settled);
  }

  lemma BeganGuarded(g: Graph, r: Registry, id: Id)
    requires Shaped(g, r) && Guarded(g, r)
    ensures Guarded(g, Began(r, id))
  {
    if Began(r, id) != r {
      var states, frame := r.states[id := Activating], Frame(id, 0, Resolving);
      NewGuarded(g, r, id);
      OthersSafe(g, r, |r.calls|, id, Activating);
      PushSafe(g, states, [], frame);
      assert [] + [frame] == [frame];
      CallJoins(g, r, states, Activation([frame]));
    }
  }

  lemma CallJoins(g: Graph, r: Registry, states: States, call: Call)
    requires OnceEach(r) && ClosedSet(g, states) && CallSafe(g, states, call) && OnceInCall(call)
    requires forall v :: Activates(call, v) ==> !Underway(r, v)
    requires forall j :: 0 <= j < |r.calls| ==> CallSafe(g, states, r.calls[j])
    requires forall j, d :: Stops(r, j, d) ==> !Needed(g, states, d)
    requires call.Deactivation? ==> !Needed(g, states, call.id)
    ensures Guarded(g, Registry(states, r.calls + [call]))
  {
    var after := Registry(states, r.calls + [call]);
    forall j, k, v | 0 <= j < |after.calls| && 0 <= k < |after.calls| && Activates(after.calls[j], v) && Activates(after.calls[k], v)
      ensures j == k
    {
      assert j < |r.calls| ==> Activates(r.calls[j], v);
      assert k < |r.calls| ==> Activates(r.calls[k], v);
    }
    forall j: nat, d | Stops(after, j, d)
      ensures !Needed(g, states, d)
    {
      assert j < |r.calls| ==> Stops(r, j, d);
    }
  }

  lemma StepGuarded(g: Graph, r: Registry, e: Event)
    requires Shaped(g, r) && Guarded(g, r) && Separate(g, r) && Enabled(r, e)
    ensures Guarded(g, After(g, r, e))
  {
    match e
    case Activate(id) => BeganGuarded(g, r, id);
    case Advance(c) => AdvancedGuarded(g, r, c);
    case Return(c, ok) => ReturnedGuarded(g, r, c, ok);
    case Rethrow(c) => RethrownGuarded(g, r, c);
    case Deactivate(id) =>
      if After(g, r, e) != r { CallJoins(g, r, r.states, Deactivation(id)); }
    case Stop(c) => StoppedGuarded(g, r, c, r.calls[c].id);
  }

  lemma {:induction false} SeparateGuarded(g: Graph, states: seq<Registry>, events: seq<Event>, n: nat)
    requires IsRun(g, states, events) && n < |states|
    requires forall i :: 0 <= i < n ==> Separate(g, states[i])
    ensures Guarded(g, states[n])
  {
    if n == 0 {
    } else {
      SeparateGuarded(g, states, events, n - 1);
      RunsShaped(g, states, events, n - 1);
      assert StepAt(g, states, events, n - 1);
      StepGuarded(g, states[n - 1], events[n - 1]);
    }
  }

  /** While no plugin is stopped during its own activation or that of one that depends on it, overlapping calls leave the active set closed. */
  lemma {:induction false} SeparateRunsStayClosed(g: Graph, states: seq<Registry>, events: seq<Event>, n: nat)
    requires IsRun(g, states, events) && n < |states|
    requires forall i :: 0 <= i < n ==> Separate(g, states[i])
    ensures ClosedSet(g, states[n].states)
    ensures forall id :: Underway(states[n], id) ==> IsIn(states[n].states, id, Activating)
  {
    SeparateGuarded(g, states, events, n);
    forall id | Underway(states[n], id) { UnderwayMarked(g, states[n], id); }
  }

  /** Stopping a plugin while the callback of one that depends on it is pending is two steps from an open active set. */
  lemma {:induction false} OverlapCanBreak(g: Graph, r: Registry, stop: nat, d: Id, c: nat)
    requires Shaped(g, r) && Stops(r, stop, d) && AwaitsIn(r, c, InCallback)
    requires Top(r.calls[c].stack).id != d && DependsOn(g, Top(r.calls[c].stack).id, d)
    ensures var stopped := After(g, r, Stop(stop));
      Enabled(stopped, Return(c, true)) && !ClosedSet(g, After(g, stopped, Return(c, true)).states)
  {
    var v, stopped := Top(r.calls[c].stack).id, After(g, r, Stop(stop));
    assert stopped.calls[c] == r.calls[c];
    var after := After(g, stopped, Return(c, true));
    assert IsIn(after.states, v, Active) && !IsIn(after.states, d, Active);
  }

  // Two runs.

  lemma RunExtends(g: Graph, states: seq<Registry>, events: seq<Event>, e: Event)
    requires IsRun(g, states, events) && Enabled(states[|events|], e)
    ensures IsRun(g, states + [After(g, states[|events|], e)], events + [e])
  {
    var longer, all := states + [After(g, states[|events|], e)], events + [e];
    forall i: nat | i < |all|
      ensures StepAt(g, longer, all, i)
    {
      assert i < |events| ==> StepAt(g, states, events, i);
    }
  }

  /** The only invocation of a call goes on. */
  lemma Retopped(f: Frame, h: Frame)
    ensures Retop([f], h) == [h]
  {
  }

  function AppOnBase(): Graph {
    map["app" := ["base"], "base" := []]
  }

  function Both(app: PluginState, base: PluginState): States {
    map["app" := app, "base" := base]
  }

  /** The dependency is activated first, by a call of its own. */
  lemma BaseActivated() returns (states: seq<Registry>, events: seq<Event>)
    ensures IsRun(AppOnBase(), states, events) && |events| == 3 && states[3] == Registry(Both(Registered, Active), [Settled])
  {
    var g := AppOnBase();
    states, events := [Initial(g)], [];
    assert Initial(g).states == Both(Registered, Registered);
    RunExtends(g, states, events, Activate("base"));
    states, events := states + [After(g, states[0], Activate("base"))], events + [Activate("base")];
    assert states[1] == Registry(Both(Registered, Activating), [Activation([Frame("base", 0, Resolving)])]);
    RunExtends(g, states, events, Advance(0));
    states, events := states + [After(g, states[1], Advance(0))], events + [Advance(0)];
    Retopped(Frame("base", 0, Resolving), Frame("base", 0, InCallback));
    assert states[2].calls == [Activation([Frame("base", 0, InCallback)])];
    assert states[2] == Registry(Both(Registered, Activating), [Activation([Frame("base", 0, InCallback)])]);
    RunExtends(g, states, events, Return(0, true));
    states, events := states + [After(g, states[2], Return(0, true))], events + [Return(0, true)];
    assert states[3] == Registry(Both(Registered, Active), [Settled]);
  }

  /** Then the plugin that depends on it, up to its callback. */
  lemma AppInCallback() returns (states: seq<Registry>, events: seq<Event>)
    ensures IsRun(AppOnBase(), states, events) && |events| == 6
    ensures states[6] == Registry(Both(Activating, Active), [Settled, Activation([Frame("app", 1, InCallback)])])
  {
    var g := AppOnBase();
    states, events := BaseActivated();
    RunExtends(g, states, events, Activate("app"));
    states, events := states + [After(g, states[3], Activate("app"))], events + [Activate("app")];
    assert states[4] == Registry(Both(Activating, Active), [Settled, Activation([Frame("app", 0, Resolving)])]);
    RunExtends(g, states, events, Advance(1));
    states, events := states + [After(g, states[4], Advance(1))], events + [Advance(1)];
    Retopped(Frame("app", 0, Resolving), Frame("app", 1, Resolving));
    assert states[5].calls == [Settled, Activation([Frame("app", 1, Resolving)])];
    assert states[5] == Registry(Both(Activating, Active), [Settled, Activation([Frame("app", 1, Resolving)])]);
    RunExtends(g, states, events, Advance(1));
    states, events := states + [After(g, states[5], Advance(1))], events + [Advance(1)];
    Retopped(Frame("app", 1, Resolving), Frame("app", 1, InCallback));
    assert states[6].calls == [Settled, Activation([Frame("app", 1, InCallback)])];
  }

  /** `deactivate("base")` passes its check while "app" awaits its callback: "app" ends up active, and "base" does not. */
  lemma {:induction false} DependencyStopped() returns (states: seq<Registry>, events: seq<Event>)
    ensures IsRun(AppOnBase(), states, events) && |events| == 9 && events[6] == Deactivate("base")
    ensures IsIn(states[9].states, "app", Active) && !IsIn(states[9].states, "base", Active)
  {
    var g := AppOnBase();
    states, events := AppInCallback();
    RunExtends(g, states, events, Deactivate("base"));
    states, events := states + [After(g, states[6], Deactivate("base"))], events + [Deactivate("base")];
    assert Stops(states[7], 2, "base");
    RunExtends(g, states, events, Stop(2));
    states, events := states + [After(g, states[7], Stop(2))], events + [Stop(2)];
    assert states[8].calls[1] == Activation([Frame("app", 1, InCallback)]);
    RunExtends(g, states, events, Return(1, true));
    states, events := states + [After(g, states[8], Return(1, true))], events + [Return(1, true)];
  }

  function TwoOnBase(): Graph {
    map["app" := ["base"], "tool" := ["base"], "base" := []]
  }

  lemma TrailsEndAtBase(t: seq<Id>)
    requires IsTrail(TwoOnBase(), t) && |t| >= 2
    ensures t[0] != "base" && t[|t| - 1] == "base"
  {
    assert DependsOn(TwoOnBase(), t[0], t[0 + 1]);
    assert DependsOn(TwoOnBase(), t[|t| - 2], t[|t| - 2 + 1]);
  }

  lemma TwoOnBaseAcyclic()
    ensures !HasCycle(TwoOnBase())
  {
    forall t
      ensures !IsCycle(TwoOnBase(), t)
    {
      if |t| >= 2 && IsTrail(TwoOnBase(), t) { TrailsEndAtBase(t); }
    }
  }

  /** The first has the dependency activated. */
  lemma AppActivatesBase() returns (states: seq<Registry>, events: seq<Event>)
    ensures IsRun(TwoOnBase(), states, events) && events == [Activate("app"), Advance(0)]
    ensures states[2].calls == [Activation([Frame("app", 0, Resolving), Frame("base", 0, Resolving)])]
    ensures IsIn(states[2].states, "base", Activating) && IsIn(states[2].states, "tool", Registered)
  {
    var g := TwoOnBase();
    states, events := [Initial(g)], [];
    RunExtends(g, states, events, Activate("app"));
    states, events := states + [After(g, states[0], Activate("app"))], events + [Activate("app")];
    assert states[1].calls == [Activation([Frame("app", 0, Resolving)])];
    RunExtends(g, states, events, Advance(0));
    states, events := states + [After(g, states[1], Advance(0))], events + [Advance(0)];
    assert [Frame("app", 0, Resolving)] + [Frame("base", 0, Resolving)] == [Frame("app", 0, Resolving), Frame("base", 0, Resolving)];
  }

  /** Two plugins share a dependency, and nothing is cyclic: the second is refused while the first has the dependency activated. */
  lemma {:induction false} SharedDependencyRefused() returns (states: seq<Registry>, events: seq<Event>)
    ensures !HasCycle(TwoOnBase()) && IsRun(TwoOnBase(), states, events)
    ensures events == [Activate("app"), Advance(0), Activate("tool"), Advance(1)]
    ensures IsIn(states[4].states, "tool", Failed)
  {
    var g := TwoOnBase();
    TwoOnBaseAcyclic();
    states, events := AppActivatesBase();
    RunExtends(g, states, events, Activate("tool"));
    states, events := states + [After(g, states[2], Activate("tool"))], events + [Activate("tool")];
    assert states[3].calls[1] == Activation([Frame("tool", 0, Resolving)]);
    RunExtends(g, states, events, Advance(1));
    states, events := states + [After(g, states[3], Advance(1))], events + [Advance(1)];
  }
}
