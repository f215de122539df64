/**
 Every task of a started scheduler stays in its cycle: a timer fires, the run it starts settles, and the task is planned
 again. Runs asked for by `runNow` come on top.
 */
module SchedulerChains {
  import opened Prelude
  import opened TaskScheduler
  import opened SchedulerLive

  /** The task a run belongs to, if a timer started it. */
  function Cycle(run: QueuedRun): Option<TaskId> {
    if run.byTimer then Some(run.task) else None
  }

  function Cycles(runs: seq<QueuedRun>): (c: seq<Option<TaskId>>)
    ensures |c| == |runs| && forall i :: 0 <= i < |runs| ==> c[i] == Cycle(runs[i])
  {
    seq(|runs|, i requires 0 <= i < |runs| => Cycle(runs[i]))
  }

  function ExecutionCycles(es: seq<Execution>): (c: seq<Option<TaskId>>)
    ensures |c| == |es| && forall i :: 0 <= i < |es| ==> c[i] == Cycle(es[i].run)
  {
    seq(|es|, i requires 0 <= i < |es| => Cycle(es[i].run))
  }

  /** Where a task is in its cycle: outstanding timers, re-plans about to happen, and live runs that a timer started. */
  function Places(s: State, t: TaskId): nat {
    Count(TimerTasks(s.timers), t) + Count(s.replans, t) + Count(Cycles(s.pending), Some(t)) + Count(ExecutionCycles(s.executions), Some(t))
  }

  function Own(run: QueuedRun, t: TaskId): nat {
    if run.byTimer && run.task == t then 1 else 0
  }

  lemma PlanPlaces(s: State, task: TaskId, t: TaskId)
    ensures Places(Plan(s, task), t) == Places(s, t) + (if s.started && task in s.tasks then One(task, t) else 0)
  {
    TimerAppend(s.timers, Timer(s.nextTimer, task), t);
  }

  lemma ExecutePlaces(s: State, run: QueuedRun, t: TaskId)
    ensures Places(Execute(s, run), t) == Places(s, t) + Own(run, t)
  {
    assert ExecutionCycles(s.executions + [Execution(run, false)]) == ExecutionCycles(s.executions) + [Cycle(run)];
    CountAppend(ExecutionCycles(s.executions), Cycle(run), Some(t));
  }

  lemma PendPlaces(s: State, run: QueuedRun, t: TaskId)
    ensures Places(s.(pending := s.pending + [run]), t) == Places(s, t) + Own(run, t)
  {
    assert Cycles(s.pending + [run]) == Cycles(s.pending) + [Cycle(run)];
    CountAppend(Cycles(s.pending), Cycle(run), Some(t));
  }

  lemma ResolvePlaces(s: State, run: QueuedRun, t: TaskId)
    ensures Places(Resolve(s, run), t) == Places(s, t) + Own(run, t)
  {
    if run.byTimer { CountAppend(s.replans, run.task, t); } else { assert s.replans + [] == s.replans; }
  }

  lemma EnqueuePlaces(s: State, task: TaskId, byTimer: bool, t: TaskId)
    ensures Places(Enqueue(s, task, byTimer), t) == Places(s, t) + (if byTimer then One(task, t) else 0)
  {
    var run, next := QueuedRun(s.nextRun, task, byTimer), s.(nextRun := s.nextRun + 1);
    assert Places(next, t) == Places(s, t);
    if IsRunning(s, task) || s.aborted {
      CountAppend(s.replans, task, t);
    } else if s.active < s.concurrency {
      ExecutePlaces(next, run, t);
    } else {
      PendPlaces(next, run, t);
    }
  }

  lemma RestPlaces(s: State, t: TaskId)
    requires s.pending != []
    ensures Places(s.(pending := s.pending[1..]), t) + Own(s.pending[0], t) == Places(s, t)
  {
    assert Cycles(s.pending[1..]) == Without(Cycles(s.pending), 0);
    CountWithout(Cycles(s.pending), 0, Some(t));
  }

  lemma {:induction false} DrainPlaces(s: State, t: TaskId)
    ensures Places(Drain(s), t) == Places(s, t)
    ensures Drain(s).tasks.Keys == s.tasks.Keys && Drain(s).order == s.order && Drain(s).started == s.started && Drain(s).aborted == s.aborted
    decreases |s.pending|
  {
    if s.active >= s.concurrency || s.pending == [] {
    } else {
      var run, rest := s.pending[0], s.(pending := s.pending[1..]);
      RestPlaces(s, t);
      ResolvePlaces(rest, run, t);
      ExecutePlaces(rest, run, t);
      DrainPlaces(if s.aborted then Resolve(rest, run) else Execute(rest, run), t);
    }
  }

  lemma {:induction false} PlanAllPlaces(s: State, ids: seq<TaskId>, t: TaskId)
    requires s.started && forall id :: id in ids ==> id in s.tasks
    ensures Places(PlanAll(s, ids), t) == Places(s, t) + Count(ids, t)
    ensures SameTasks(s, PlanAll(s, ids))
  {
    if ids == [] {
    } else {
      PlanAllPlaces(s, ids[..|ids| - 1], t);
      PlanPlaces(PlanAll(s, ids[..|ids| - 1]), ids[|ids| - 1], t);
    }
  }

  lemma FirePlaces(s: State, k: nat, t: TaskId)
    requires k < |s.timers|
    ensures Places(Next(s, Fire(k)), t) == Places(s, t)
  {
    var fired := s.(timers := Without(s.timers, k));
    assert TimerTasks(fired.timers) == Without(TimerTasks(s.timers), k);
    CountWithout(TimerTasks(s.timers), k, t);
    EnqueuePlaces(fired, s.timers[k].task, true, t);
  }

  lemma SettlePlaces(s: State, k: nat, t: TaskId)
    requires k < |s.executions| && s.executions[k].finished
    ensures Places(Next(s, Settle(k)), t) == Places(s, t)
  {
    var gone := s.(active := s.active - 1, executions := Without(s.executions, k));
    GonePlaces(s, k, t);
    ResolvePlaces(gone, s.executions[k].run, t);
    DrainPlaces(Resolve(gone, s.executions[k].run), t);
    assert Next(s, Settle(k)) == Drain(Resolve(gone, s.executions[k].run));
  }

  lemma GonePlaces(s: State, k: nat, t: TaskId)
    requires k < |s.executions|
    ensures Places(s.(active := s.active - 1, executions := Without(s.executions, k)), t) + Own(s.executions[k].run, t) == Places(s, t)
  {
    assert ExecutionCycles(Without(s.executions, k)) == Without(ExecutionCycles(s.executions), k);
    CountWithout(ExecutionCycles(s.executions), k, Some(t));
  }

  lemma ReplanPlaces(s: State, k: nat, t: TaskId)
    requires k < |s.replans| && s.started && s.replans[k] in s.tasks
    ensures Places(Next(s, Replan(k)), t) == Places(s, t)
  {
    CountWithout(s.replans, k, t);
    PlanPlaces(s.(replans := Without(s.replans, k)), s.replans[k], t);
  }

  /** Before the scheduler is started nothing is planned; then each registered task is in exactly one place. */
  ghost predicate InCycle(s: State) {
    && Registered(s) && Distinct(s.order) && (forall t :: t in s.order <==> t in s.tasks) && !s.aborted
    && forall t :: Places(s, t) == if s.started && t in s.tasks then 1 else 0
  }

  lemma RegisterInCycle(s: State, id: TaskId, intervalMs: int)
    requires InCycle(s) && intervalMs >= 10 && id !in s.tasks
    ensures InCycle(Next(s, Register(id, intervalMs)))
  {
    var added := s.(order := s.order + [id], tasks := s.tasks[id := TaskRecord(intervalMs, false, None)]);
    NextRegistered(s, Register(id, intervalMs));
    forall t
      ensures Places(Next(s, Register(id, intervalMs)), t) == Places(s, t) + (if s.started then One(id, t) else 0)
    {
      PlanPlaces(added, id, t);
    }
  }

  lemma StartInCycle(s: State)
    requires InCycle(s) && !s.started
    ensures InCycle(Next(s, Start))
  {
    NextRegistered(s, Start);
    forall t
      ensures Places(Next(s, Start), t) == if t in s.tasks then 1 else 0
    {
      PlanAllPlaces(s.(started := true, aborted := false), s.order, t);
      CountDistinct(s.order, t);
    }
    PlanAllPlaces(s.(started := true, aborted := false), s.order, "");
  }

  /** A step that neither registers, starts nor stops moves tasks along their cycle. */
  lemma MovesAlong(s: State, e: Event, t: TaskId)
    requires Registered(s) && !e.Register? && !e.Start? && !e.Stop? && (e.Replan? ==> s.started)
    ensures Places(Next(s, e), t) == Places(s, t)
  {
    match e {
      case RunNow(id) => EnqueuePlaces(s, id, false, t);
      case Fire(k) => if k < |s.timers| { FirePlaces(s, k, t); }
      case Finish(k) =>
        if k < |s.executions| && !s.executions[k].finished {
          assert ExecutionCycles(Next(s, e).executions) == ExecutionCycles(s.executions);
        }
      case Settle(k) => if k < |s.executions| && s.executions[k].finished { SettlePlaces(s, k, t); }
      case Replan(k) =>
        if k < |s.replans| {
          assert s.replans[k] in s.replans;
          ReplanPlaces(s, k, t);
        }
    }
  }

  lemma MovesKeep(s: State, e: Event)
    requires Registered(s) && !e.Register? && !e.Start? && !e.Stop?
    ensures SameTasks(s, Next(s, e))
  {
    match e {
      case RunNow(id) => EnqueueKeepsTasks(s, id, false);
      case Fire(k) => if k < |s.timers| { EnqueueKeepsTasks(s.(timers := Without(s.timers, k)), s.timers[k].task, true); }
      case Settle(k) => SettleKeepsTasks(s, k);
      case Finish(_) =>
      case Replan(_) =>
    }
  }

  lemma EnqueueKeepsTasks(s: State, task: TaskId, byTimer: bool)
    ensures SameTasks(s, Enqueue(s, task, byTimer))
  {
  }

  lemma SettleKeepsTasks(s: State, k: nat)
    ensures SameTasks(s, Next(s, Settle(k)))
  {
    if k < |s.executions| && s.executions[k].finished {
      DrainPlaces(Resolve(s.(active := s.active - 1, executions := Without(s.executions, k)), s.executions[k].run), "");
    }
  }

  lemma StepInCycle(s: State, e: Event)
    requires InCycle(s) && !e.Stop?
    ensures InCycle(Next(s, e))
  {
    if e.Register? {
      if e.intervalMs >= 10 && e.id !in s.tasks { RegisterInCycle(s, e.id, e.intervalMs); }
    } else if e.Start? {
      if !s.started { StartInCycle(s); }
    } else {
      NextRegistered(s, e);
      MovesKeep(s, e);
      if e.Replan? && !s.started {
        NothingPlanned(s, e.k);
      } else {
        forall t { MovesAlong(s, e, t); }
      }
    }
  }

  lemma ReplanPlaced(s: State, k: nat)
    requires k < |s.replans|
    ensures Places(s, s.replans[k]) >= 1
  {
    CountWithout(s.replans, k, s.replans[k]);
  }

  lemma NothingPlanned(s: State, k: nat)
    requires InCycle(s) && !s.started
    ensures Next(s, Replan(k)) == s
  {
    if k < |s.replans| { ReplanPlaced(s, k); }
  }

  /** In every interleaving without a `stop`, each task registered with a started scheduler is in exactly one place of its cycle. */
  lemma {:induction false} NeverFallsOut(concurrency: nat, events: seq<Event>)
    requires forall e :: e in events ==> !e.Stop?
    ensures InCycle(After(Initial(concurrency), events))
  {
    if events == [] {
      assert TimerTasks([]) == [] && Cycles([]) == [] && ExecutionCycles([]) == [];
    } else {
      NeverFallsOut(concurrency, events[..|events| - 1]);
      StepInCycle(After(Initial(concurrency), events[..|events| - 1]), events[|events| - 1]);
    }
  }
}
