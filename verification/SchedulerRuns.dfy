/** What the task scheduler keeps over every interleaving. */
module SchedulerRuns {
  import opened Prelude
  import opened TaskScheduler

  function RunIds(runs: seq<QueuedRun>): (ids: seq<nat>)
    ensures |ids| == |runs| && forall i :: 0 <= i < |ids| ==> ids[i] == runs[i].id
  {
    seq(|runs|, i requires 0 <= i < |runs| => runs[i].id)
  }

  function ExecutionIds(es: seq<Execution>): (ids: seq<nat>)
    ensures |ids| == |es| && forall i :: 0 <= i < |ids| ==> ids[i] == es[i].run.id
  {
    seq(|es|, i requires 0 <= i < |es| => es[i].run.id)
  }

  ghost predicate Increasing(ids: seq<nat>) {
    forall i, j :: 0 <= i < j < |ids| ==> ids[i] < ids[j]
  }

  /** Where each run ever queued is: waiting, executing or resolved. */
  function Whereabouts(s: State): multiset<nat> {
    multiset(RunIds(s.pending)) + multiset(ExecutionIds(s.executions)) + multiset(s.resolved)
  }

  ghost predicate Bounded(s: State) {
    && s.concurrency >= 1
    && s.active == |s.executions| <= s.concurrency
    && (s.pending != [] ==> s.active == s.concurrency && !s.aborted)
  }

  /** Every id below `next` occurs exactly once, and no other. */
  ghost predicate EachOnce(places: multiset<nat>, next: nat) {
    forall id: nat :: places[id] == if id < next then 1 else 0
  }

  /** The runs launched so far, then those waiting. */
  function Line(s: State): seq<nat> {
    s.launched + RunIds(s.pending)
  }

  ghost predicate InOrder(line: seq<nat>, next: nat) {
    Increasing(line) && forall id :: id in line ==> id < next
  }

  ghost predicate Invariant(s: State) {
    Bounded(s) && EachOnce(Whereabouts(s), s.nextRun) && InOrder(Line(s), s.nextRun)
  }

  lemma SameRuns(s: State, t: State)
    requires t.pending == s.pending && t.resolved == s.resolved && t.launched == s.launched && t.nextRun == s.nextRun
    requires ExecutionIds(t.executions) == ExecutionIds(s.executions)
    ensures Whereabouts(t) == Whereabouts(s) && Line(t) == Line(s)
  {
  }

  lemma PlanKeeps(s: State, task: TaskId)
    requires Invariant(s)
    ensures Invariant(Plan(s, task))
  {
    SameRuns(s, Plan(s, task));
  }

  lemma PlanAllKeeps(s: State, ids: seq<TaskId>)
    requires Invariant(s)
    ensures Invariant(PlanAll(s, ids))
  {
    if ids == [] {
    } else {
      PlanAllKeeps(s, ids[..|ids| - 1]);
      PlanKeeps(PlanAll(s, ids[..|ids| - 1]), ids[|ids| - 1]);
    }
  }

  lemma IdsAppend(runs: seq<QueuedRun>, run: QueuedRun, es: seq<Execution>, e: Execution)
    ensures RunIds(runs + [run]) == RunIds(runs) + [run.id]
    ensures ExecutionIds(es + [e]) == ExecutionIds(es) + [e.run.id]
  {
  }

  lemma LineGrows(line: seq<nat>, next: nat)
    requires InOrder(line, next)
    ensures InOrder(line + [next], next + 1)
  {
    assert forall i :: 0 <= i < |line| ==> line[i] in line;
  }

  lemma SnocMultiset<T>(s: seq<T>, x: T)
    ensures multiset(s + [x]) == multiset(s) + multiset{x}
  {
  }

  lemma ConsMultiset<T>(x: T, s: seq<T>)
    ensures multiset([x] + s) == multiset{x} + multiset(s)
  {
  }

  lemma PendingGrows(s: State, run: QueuedRun)
    ensures var t := s.(pending := s.pending + [run]); Whereabouts(t) == Whereabouts(s) + multiset{run.id} && Line(t) == Line(s) + [run.id]
  {
    IdsAppend(s.pending, run, [], Execution(run, false));
    SnocMultiset(RunIds(s.pending), run.id);
  }

  lemma LaunchGrows(s: State, run: QueuedRun)
    requires s.pending == []
    ensures Whereabouts(Execute(s, run)) == Whereabouts(s) + multiset{run.id} && Line(Execute(s, run)) == Line(s) + [run.id]
  {
    IdsAppend([], run, s.executions, Execution(run, false));
    SnocMultiset(ExecutionIds(s.executions), run.id);
  }

  lemma EachOnceGrows(places: multiset<nat>, next: nat)
    requires EachOnce(places, next)
    ensures EachOnce(places + multiset{next}, next + 1)
  {
  }

  lemma EnqueueKeeps(s: State, task: TaskId, byTimer: bool)
    requires Invariant(s)
    ensures Invariant(Enqueue(s, task, byTimer))
  {
    var run := QueuedRun(s.nextRun, task, byTimer);
    if IsRunning(s, task) || s.aborted {
      SameRuns(s, Enqueue(s, task, byTimer));
    } else if s.active < s.concurrency {
      ExecuteKeeps(s, run);
    } else {
      WaitKeeps(s, run);
    }
  }

  lemma ExecuteKeeps(s: State, run: QueuedRun)
    requires Invariant(s) && !s.aborted && s.active < s.concurrency && run.id == s.nextRun
    ensures Invariant(Execute(s.(nextRun := s.nextRun + 1), run))
  {
    var next := s.(nextRun := s.nextRun + 1);
    LaunchGrows(next, run);
    NewRunKeeps(s, Execute(next, run));
  }

  lemma WaitKeeps(s: State, run: QueuedRun)
    requires Invariant(s) && !s.aborted && s.active >= s.concurrency && run.id == s.nextRun
    ensures Invariant(s.(nextRun := s.nextRun + 1, pending := s.pending + [run]))
  {
    var next := s.(nextRun := s.nextRun + 1);
    PendingGrows(next, run);
    NewRunKeeps(s, next.(pending := s.pending + [run]));
  }

  /** One more run, with the next id, at the end of the line. */
  lemma NewRunKeeps(s: State, t: State)
    requires EachOnce(Whereabouts(s), s.nextRun) && InOrder(Line(s), s.nextRun) && t.nextRun == s.nextRun + 1
    requires Whereabouts(t) == Whereabouts(s) + multiset{s.nextRun} && Line(t) == Line(s) + [s.nextRun]
    ensures EachOnce(Whereabouts(t), t.nextRun) && InOrder(Line(t), t.nextRun)
  {
    LineGrows(Line(s), s.nextRun);
    EachOnceGrows(Whereabouts(s), s.nextRun);
  }

  lemma WithoutMultiset<T>(s: seq<T>, k: nat)
    requires k < |s|
    ensures multiset(s) == multiset(Without(s, k)) + multiset{s[k]}
  {
    assert s == s[..k] + [s[k]] + s[k + 1..];
  }

  /** Between a settled execution and its drain, a slot may be free while runs wait. */
  ghost predicate Draining(s: State) {
    && s.concurrency >= 1 && s.active == |s.executions| <= s.concurrency
    && (s.pending != [] ==> !s.aborted)
    && EachOnce(Whereabouts(s), s.nextRun) && InOrder(Line(s), s.nextRun)
  }

  lemma LaunchFirst(s: State)
    requires s.pending != []
    ensures var t := Execute(s.(pending := s.pending[1..]), s.pending[0]);
      Whereabouts(t) == Whereabouts(s) && Line(t) == Line(s)
  {
    var run := s.pending[0];
    assert RunIds(s.pending) == [run.id] + RunIds(s.pending[1..]);
    ConsMultiset(run.id, RunIds(s.pending[1..]));
    IdsAppend([], run, s.executions, Execution(run, false));
    SnocMultiset(ExecutionIds(s.executions), run.id);
    Regroup(s.launched, run.id, RunIds(s.pending[1..]));
  }

  lemma Regroup<T>(a: seq<T>, x: T, b: seq<T>)
    ensures a + [x] + b == a + ([x] + b)
  {
  }

  lemma {:induction false} DrainKeeps(s: State)
    requires Draining(s)
    ensures Invariant(Drain(s))
    decreases |s.pending|
  {
    if s.active >= s.concurrency || s.pending == [] {
    } else {
      LaunchFirst(s);
      DrainKeeps(Execute(s.(pending := s.pending[1..]), s.pending[0]));
    }
  }

  /** The state between resolving a settled run and draining the queue. */
  function Settled(s: State, k: nat): State
    requires k < |s.executions|
  {
    Resolve(s.(active := s.active - 1, executions := Without(s.executions, k)), s.executions[k].run)
  }

  lemma SettleMovesRun(s: State, k: nat)
    requires k < |s.executions|
    ensures Whereabouts(Settled(s, k)) == Whereabouts(s) && Line(Settled(s, k)) == Line(s)
  {
    assert ExecutionIds(Without(s.executions, k)) == Without(ExecutionIds(s.executions), k);
    WithoutMultiset(ExecutionIds(s.executions), k);
  }

  lemma SettleKeeps(s: State, k: nat)
    requires Invariant(s) && k < |s.executions| && s.executions[k].finished
    ensures Invariant(Next(s, Settle(k)))
  {
    SettledDrains(s, k);
    DrainKeeps(Settled(s, k));
    SettleIsDrain(s, k);
  }

  lemma SettleIsDrain(s: State, k: nat)
    requires k < |s.executions| && s.executions[k].finished
    ensures Next(s, Settle(k)) == Drain(Settled(s, k))
  {
  }

  lemma SettledDrains(s: State, k: nat)
    requires Invariant(s) && k < |s.executions|
    ensures Draining(Settled(s, k))
  {
    SettleMovesRun(s, k);
    SamePlaces(Whereabouts(s), Whereabouts(Settled(s, k)), Line(s), Line(Settled(s, k)), s.nextRun);
  }

  lemma SamePlaces(before: multiset<nat>, after: multiset<nat>, line: seq<nat>, line': seq<nat>, next: nat)
    requires EachOnce(before, next) && InOrder(line, next) && after == before && line' == line
    ensures EachOnce(after, next) && InOrder(line', next)
  {
  }

  lemma {:induction false} ResolveAllEffect(s: State, runs: seq<QueuedRun>)
    ensures ResolveAll(s, runs) == s.(resolved := s.resolved + RunIds(runs), replans := ResolveAll(s, runs).replans)
  {
    if runs == [] {
      assert s.resolved + RunIds(runs) == s.resolved;
    } else {
      ResolveAllEffect(s, runs[..|runs| - 1]);
      IdsAppend(runs[..|runs| - 1], runs[|runs| - 1], [], Execution(runs[|runs| - 1], false));
      assert runs[..|runs| - 1] + [runs[|runs| - 1]] == runs;
      assert s.resolved + RunIds(runs[..|runs| - 1]) + [runs[|runs| - 1].id] == s.resolved + RunIds(runs);
    }
  }

  lemma PrefixInOrder(line: seq<nat>, rest: seq<nat>, next: nat)
    requires InOrder(line + rest, next)
    ensures InOrder(line, next)
  {
    assert forall i :: 0 <= i < |line| ==> line[i] == (line + rest)[i] && (line + rest)[i] in line + rest;
  }

  lemma StopKeeps(s: State)
    requires Invariant(s)
    ensures Invariant(StopState(s)) && StopState(s).pending == []
  {
    var stopped := Stopped(s);
    ResolveAllEffect(stopped, s.pending);
    PrefixInOrder(s.launched, RunIds(s.pending), s.nextRun);
    assert RunIds([]) == [];
    assert Line(StopState(s)) == s.launched;
    assert Whereabouts(StopState(s)) == Whereabouts(s);
  }

  lemma RegisterKeeps(s: State, id: TaskId, intervalMs: int)
    requires Invariant(s)
    ensures Invariant(Next(s, Register(id, intervalMs)))
  {
    if intervalMs >= 10 && id !in s.tasks {
      var t := s.(order := s.order + [id], tasks := s.tasks[id := TaskRecord(intervalMs, false, None)]);
      SameRuns(s, t);
      PlanKeeps(t, id);
    }
  }

  lemma StartKeeps(s: State)
    requires Invariant(s)
    ensures Invariant(Next(s, Start))
  {
    if !s.started {
      SameRuns(s, s.(started := true, aborted := false));
      PlanAllKeeps(s.(started := true, aborted := false), s.order);
    }
  }

  lemma FireKeeps(s: State, k: nat)
    requires Invariant(s)
    ensures Invariant(Next(s, Fire(k)))
  {
    if k < |s.timers| {
      SameRuns(s, s.(timers := Without(s.timers, k)));
      EnqueueKeeps(s.(timers := Without(s.timers, k)), s.timers[k].task, true);
    }
  }

  lemma FinishKeeps(s: State, k: nat)
    requires Invariant(s)
    ensures Invariant(Next(s, Finish(k)))
  {
    if k < |s.executions| && !s.executions[k].finished {
      assert ExecutionIds(Next(s, Finish(k)).executions) == ExecutionIds(s.executions);
      SameRuns(s, Next(s, Finish(k)));
    }
  }

  lemma ReplanKeeps(s: State, k: nat)
    requires Invariant(s)
    ensures Invariant(Next(s, Replan(k)))
  {
    if k < |s.replans| {
      SameRuns(s, s.(replans := Without(s.replans, k)));
      PlanKeeps(s.(replans := Without(s.replans, k)), s.replans[k]);
    }
  }

  lemma NextKeeps(s: State, e: Event)
    requires Invariant(s)
    ensures Invariant(Next(s, e))
  {
    match e {
      case Register(id, intervalMs) => RegisterKeeps(s, id, intervalMs);
      case Start => StartKeeps(s);
      case Stop => StopKeeps(s);
      case RunNow(id) => EnqueueKeeps(s, id, false);
      case Fire(k) => FireKeeps(s, k);
      case Finish(k) => FinishKeeps(s, k);
      case Settle(k) =>
        if k < |s.executions| && s.executions[k].finished { SettleKeeps(s, k); }
      case Replan(k) => ReplanKeeps(s, k);
    }
  }

  /**
   Over every interleaving: `active` counts the unfinished executions and stays within `concurrency`, runs wait only
   while every slot is taken, they are launched first in first out, and each run is in exactly one place.
   */
  lemma {:induction false} EveryInterleaving(concurrency: nat, events: seq<Event>)
    requires concurrency >= 1
    ensures Invariant(After(Initial(concurrency), events))
  {
    if events == [] {
    } else {
      EveryInterleaving(concurrency, events[..|events| - 1]);
      NextKeeps(After(Initial(concurrency), events[..|events| - 1]), events[|events| - 1]);
    }
  }

  /** No run is resolved twice, and once nothing executes every run ever queued has been resolved. */
  lemma {:induction false} ResolvedExactlyOnce(s: State)
    requires Invariant(s)
    ensures forall id: nat :: multiset(s.resolved)[id] <= 1
    ensures s.executions == [] ==> forall id: nat :: id < s.nextRun ==> id in s.resolved
  {
    forall id: nat
      ensures multiset(s.resolved)[id] <= Whereabouts(s)[id] <= 1
    {
    }
    if s.executions == [] {
      assert RunIds(s.pending) == [] && ExecutionIds(s.executions) == [];
      forall id: nat | id < s.nextRun
        ensures id in s.resolved
      {
        assert Whereabouts(s)[id] == 1;
      }
    }
  }
}
