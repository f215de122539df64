/** Which timers outlive a `stop`. */
module SchedulerStops {
  import opened Prelude
  import opened TaskScheduler
  import opened SchedulerLive
  import opened SchedulerChains

  /** After a `stop` no timer is outstanding exactly if each one's handle was kept by a record. */
  lemma {:induction false} StopClearsIff(s: State)
    requires s.started
    ensures Next(s, Stop).timers == [] <==> forall timer :: timer in s.timers ==> Kept(s, timer)
  {
    StopStopsAll(s);
    var t := Next(s, Stop);
    if t.timers != [] { assert t.timers[0] in t.timers; }
  }

  /** Each outstanding timer is the one that its task's record keeps. */
  ghost predicate HandlesKept(s: State) {
    forall timer :: timer in s.timers ==> timer.task in s.tasks && s.tasks[timer.task].timer == Some(timer.id)
  }

  lemma {:induction false} TimerCounts(ts: seq<Timer>, timer: Timer)
    requires timer in ts
    ensures Count(TimerTasks(ts), timer.task) >= 1
  {
    var k :| 0 <= k < |ts| && ts[k] == timer;
    CountWithout(TimerTasks(ts), k, timer.task);
  }

  /** Planning a task that is nowhere in its cycle keeps the handles. */
  lemma PlanKeepsHandles(s: State, task: TaskId)
    requires HandlesKept(s) && Places(s, task) == 0
    ensures HandlesKept(Plan(s, task))
  {
    forall timer | timer in s.timers
      ensures timer.task != task
    {
      TimerCounts(s.timers, timer);
    }
  }

  lemma {:induction false} PlanAllKeepsHandles(s: State, ids: seq<TaskId>)
    requires HandlesKept(s) && s.started && Distinct(ids) && forall id :: id in ids ==> id in s.tasks && Places(s, id) == 0
    ensures HandlesKept(PlanAll(s, ids))
  {
    if ids == [] {
    } else {
      var front, last := ids[..|ids| - 1], ids[|ids| - 1];
      PlanAllKeepsHandles(s, front);
      PlanAllPlaces(s, front, last);
      CountDistinct(front, last);
      PlanKeepsHandles(PlanAll(s, front), last);
    }
  }

  lemma SameHandles(s: State, t: State)
    requires HandlesKept(s) && (forall timer :: timer in t.timers ==> timer in s.timers)
    requires forall id :: id in s.tasks ==> id in t.tasks && t.tasks[id].timer == s.tasks[id].timer
    ensures HandlesKept(t)
  {
  }

  lemma {:induction false} DrainKeepsHandles(s: State)
    ensures Drain(s).timers == s.timers
    ensures forall id :: id in s.tasks ==> id in Drain(s).tasks && Drain(s).tasks[id].timer == s.tasks[id].timer
    decreases |s.pending|
  {
    if s.active >= s.concurrency || s.pending == [] {
    } else {
      var run, rest := s.pending[0], s.(pending := s.pending[1..]);
      DrainKeepsHandles(if s.aborted then Resolve(rest, run) else Execute(rest, run));
    }
  }

  lemma ReplanKeepsHandles(s: State, k: nat)
    requires InCycle(s) && HandlesKept(s) && k < |s.replans|
    ensures HandlesKept(Next(s, Replan(k)))
  {
    var rest := s.(replans := Without(s.replans, k));
    CountWithout(s.replans, k, s.replans[k]);
    assert Places(s, s.replans[k]) <= 1;
    PlanKeepsHandles(rest, s.replans[k]);
  }

  lemma RegisterKeepsHandles(s: State, id: TaskId, intervalMs: int)
    requires InCycle(s) && HandlesKept(s) && id !in s.tasks
    ensures HandlesKept(Next(s, Register(id, intervalMs)))
  {
    if intervalMs >= 10 {
      var added := s.(order := s.order + [id], tasks := s.tasks[id := TaskRecord(intervalMs, false, None)]);
      assert Places(added, id) == Places(s, id) == 0;
      PlanKeepsHandles(added, id);
    }
  }

  lemma StepKeepsHandles(s: State, e: Event)
    requires InCycle(s) && HandlesKept(s) && !e.Stop?
    ensures HandlesKept(Next(s, e))
  {
    match e {
      case Register(id, intervalMs) => if id !in s.tasks { RegisterKeepsHandles(s, id, intervalMs); }
      case Start =>
        if !s.started {
          var begun := s.(started := true, aborted := false);
          forall id | id in s.order
            ensures Places(begun, id) == 0
          {
            assert Places(begun, id) == Places(s, id);
          }
          PlanAllKeepsHandles(begun, s.order);
        }
      case RunNow(id) => EnqueueKeepsHandles(s, id, false);
      case Fire(k) => FireKeepsHandles(s, k);
      case Finish(_) => SameHandles(s, Next(s, e));
      case Settle(k) => SettleKeepsHandles(s, k);
      case Replan(k) => if k < |s.replans| { ReplanKeepsHandles(s, k); }
    }
  }

  lemma EnqueueKeepsHandles(s: State, task: TaskId, byTimer: bool)
    requires HandlesKept(s)
    ensures HandlesKept(Enqueue(s, task, byTimer))
  {
    SameHandles(s, Enqueue(s, task, byTimer));
  }

  lemma FireKeepsHandles(s: State, k: nat)
    requires HandlesKept(s)
    ensures HandlesKept(Next(s, Fire(k)))
  {
    if k < |s.timers| {
      var fired := s.(timers := Without(s.timers, k));
      SameHandles(s, fired);
      EnqueueKeepsHandles(fired, s.timers[k].task, true);
    }
  }

  lemma SettleKeepsHandles(s: State, k: nat)
    requires HandlesKept(s)
    ensures HandlesKept(Next(s, Settle(k)))
  {
    if k < |s.executions| && s.executions[k].finished {
      var gone := Resolve(s.(active := s.active - 1, executions := Without(s.executions, k)), s.executions[k].run);
      DrainKeepsHandles(gone);
      SameHandles(s, Drain(gone));
    }
  }

  lemma {:induction false} HandlesStayKept(concurrency: nat, events: seq<Event>)
    requires forall e :: e in events ==> !e.Stop?
    ensures HandlesKept(After(Initial(concurrency), events))
  {
    if events == [] {
    } else {
      var front := events[..|events| - 1];
      HandlesStayKept(concurrency, front);
      NeverFallsOut(concurrency, front);
      StepKeepsHandles(After(Initial(concurrency), front), events[|events| - 1]);
    }
  }

  /** The first `stop` of an interleaving leaves no timer outstanding and no run waiting. */
  lemma {:induction false} FirstStopIsClean(concurrency: nat, events: seq<Event>)
    requires forall e :: e in events ==> !e.Stop?
    ensures var s := After(Initial(concurrency), events); s.started ==> Next(s, Stop).timers == [] && Next(s, Stop).pending == []
  {
    var s := After(Initial(concurrency), events);
    if s.started {
      HandlesStayKept(concurrency, events);
      StopClearsIff(s);
      StopStopsAll(s);
    }
  }

  // After a restart it may not be.

  function Ticking(timer: nat, timers: seq<Timer>, executions: seq<Execution>): State {
    Initial(1).(order := ["a"], tasks := map["a" := TaskRecord(10, executions != [] && !executions[0].finished, Some(timer))], timers := timers,
                executions := executions, active := |executions|, started := true)
  }

  lemma FirstPlanned()
    ensures Reached(1, Ticking(0, [Timer(0, "a")], []).(nextTimer := 1))
  {
    ReachedInitial(1);
    ReachedTwo(1, Initial(1), Start, Register("a", 10));
    var s := Next(Next(Initial(1), Start), Register("a", 10));
    assert s.order == ["a"] && s.timers == [Timer(0, "a")] && s.tasks == map["a" := TaskRecord(10, false, Some(0))];
  }

  lemma FirstRun()
    ensures Reached(1, Ticking(0, [], [Execution(QueuedRun(0, "a", true), false)]).(launched := [0], nextRun := 1, nextTimer := 1))
  {
    var s := Ticking(0, [Timer(0, "a")], []).(nextTimer := 1);
    FirstPlanned();
    ReachedNext(1, s, Fire(0));
    var t := Next(s, Fire(0));
    assert t.timers == [] && t.executions == [Execution(QueuedRun(0, "a", true), false)] && t.launched == [0];
    assert t.tasks == map["a" := TaskRecord(10, true, Some(0))];
  }

  lemma Restarted(s: State) returns (t: State)
    requires s == Ticking(0, [], [Execution(QueuedRun(0, "a", true), false)]).(launched := [0], nextRun := 1, nextTimer := 1) && Reached(1, s)
    ensures Reached(1, t) && t == Ticking(1, [Timer(1, "a")], [Execution(QueuedRun(0, "a", true), false)]).(launched := [0], nextRun := 1, nextTimer := 2)
  {
    ReachedTwo(1, s, Stop, Start);
    var stopped := Next(s, Stop);
    assert stopped.timers == [] && stopped.tasks == map["a" := TaskRecord(10, true, None)];
    t := Next(stopped, Start);
    assert ["a"][..0] == [] && PlanAll(stopped.(started := true, aborted := false), []) == stopped.(started := true, aborted := false);
    assert t.timers == [Timer(1, "a")] && t.tasks == map["a" := TaskRecord(10, true, Some(1))];
  }

  lemma PlannedAgain(s: State) returns (t: State)
    requires s == Ticking(1, [Timer(1, "a")], [Execution(QueuedRun(0, "a", true), false)]).(launched := [0], nextRun := 1, nextTimer := 2) && Reached(1, s)
    ensures Reached(1, t) && t.started && t.timers == [Timer(1, "a"), Timer(2, "a")] && t.tasks == map["a" := TaskRecord(10, false, Some(2))]
  {
    ReachedTwo(1, s, Finish(0), Settle(0));
    var settled := Next(Next(s, Finish(0)), Settle(0));
    assert settled.replans == ["a"] && settled.tasks == map["a" := TaskRecord(10, false, Some(1))] && settled.timers == [Timer(1, "a")];
    ReachedNext(1, settled, Replan(0));
    t := Next(settled, Replan(0));
    assert t.timers == [Timer(1, "a"), Timer(2, "a")];
  }

  /** A run outlives `stop` and `start` and plans its task a second time; the next `stop` clears only one of the two timers. */
  lemma {:induction false} TimerOutlivesStop() returns (s: State)
    ensures Reached(1, s) && s.started && Timer(1, "a") in Next(s, Stop).timers
  {
    FirstRun();
    s := Restarted(Ticking(0, [], [Execution(QueuedRun(0, "a", true), false)]).(launched := [0], nextRun := 1, nextTimer := 1));
    s := PlannedAgain(s);
    StopStopsAll(s);
    assert !Kept(s, Timer(1, "a"));
  }
}
