/** How many runs of one task can be live, that is waiting or running, at once. */
module SchedulerLive {
  import opened Prelude
  import opened TaskScheduler

  function Count<T(==)>(s: seq<T>, x: T): nat {
    if s == [] then 0 else Count(s[..|s| - 1], x) + (if s[|s| - 1] == x then 1 else 0)
  }

  lemma CountConcat<T>(a: seq<T>, b: seq<T>, x: T)
    ensures Count(a + b, x) == Count(a, x) + Count(b, x)
  {
    if b == [] {
      assert a + b == a;
    } else {
      CountConcat(a, b[..|b| - 1], x);
      assert (a + b)[..|a + b| - 1] == a + b[..|b| - 1];
    }
  }

  lemma CountOne<T>(x: T, y: T)
    ensures Count([y], x) == if y == x then 1 else 0
  {
    assert [y][..0] == [];
  }

  lemma CountAppend<T>(s: seq<T>, y: T, x: T)
    ensures Count(s + [y], x) == Count(s, x) + (if y == x then 1 else 0)
  {
    CountConcat(s, [y], x);
    CountOne(x, y);
  }

  lemma CountThree<T>(a: seq<T>, y: T, c: seq<T>, x: T)
    ensures Count(a + [y] + c, x) == Count(a, x) + (if y == x then 1 else 0) + Count(c, x)
  {
    CountConcat(a + [y], c, x);
    CountAppend(a, y, x);
  }

  lemma CountWithout<T>(s: seq<T>, k: nat, x: T)
    requires k < |s|
    ensures Count(s, x) == Count(Without(s, k), x) + (if s[k] == x then 1 else 0)
  {
    Around(s, k);
    CountThree(s[..k], s[k], s[k + 1..], x);
    CountConcat(s[..k], s[k + 1..], x);
  }

  lemma Around<T>(s: seq<T>, k: nat)
    requires k < |s|
    ensures s == s[..k] + [s[k]] + s[k + 1..]
  {
  }

  lemma CountDistinct<T>(s: seq<T>, x: T)
    requires Distinct(s)
    ensures Count(s, x) == if x in s then 1 else 0
  {
    if s == [] {
    } else {
      CountDistinct(s[..|s| - 1], x);
      assert s[|s| - 1] !in s[..|s| - 1];
    }
  }

  function TimerTasks(ts: seq<Timer>): (ids: seq<TaskId>)
    ensures |ids| == |ts| && forall i :: 0 <= i < |ts| ==> ids[i] == ts[i].task
  {
    seq(|ts|, i requires 0 <= i < |ts| => ts[i].task)
  }

  function RunTasks(runs: seq<QueuedRun>): (ids: seq<TaskId>)
    ensures |ids| == |runs| && forall i :: 0 <= i < |runs| ==> ids[i] == runs[i].task
  {
    seq(|runs|, i requires 0 <= i < |runs| => runs[i].task)
  }

  function ExecutionTasks(es: seq<Execution>): (ids: seq<TaskId>)
    ensures |ids| == |es| && forall i :: 0 <= i < |es| ==> ids[i] == es[i].run.task
  {
    seq(|es|, i requires 0 <= i < |es| => es[i].run.task)
  }

  /** How many runs of a task are waiting or not yet settled. */
  function Live(s: State, task: TaskId): nat {
    Count(RunTasks(s.pending), task) + Count(ExecutionTasks(s.executions), task)
  }

  /** A task's places in its cycle: outstanding timers, re-plans about to happen, and live runs. */
  function Tokens(s: State, task: TaskId): nat {
    Count(TimerTasks(s.timers), task) + Count(s.replans, task) + Live(s, task)
  }

  function One(a: TaskId, b: TaskId): nat {
    if a == b then 1 else 0
  }

  ghost predicate OneLiveEach(s: State) {
    forall task :: Live(s, task) <= 1
  }

  ghost predicate AllByTimer(s: State) {
    (forall r :: r in s.pending ==> r.byTimer) && (forall e :: e in s.executions ==> e.run.byTimer)
  }

  ghost predicate OneTokenEach(s: State) {
    && AllByTimer(s)
    && Distinct(s.order) && (forall t :: t in s.order <==> t in s.tasks)
    && (forall t :: Tokens(s, t) <= if t in s.tasks then 1 else 0)
    && (!s.started && !s.aborted ==> forall t :: Tokens(s, t) == 0)
  }

  lemma PlanTokens(s: State, task: TaskId, t: TaskId)
    ensures Tokens(Plan(s, task), t) == Tokens(s, t) + (if s.started && task in s.tasks then One(task, t) else 0)
  {
    TimerAppend(s.timers, Timer(s.nextTimer, task), t);
  }

  lemma TimerAppend(timers: seq<Timer>, timer: Timer, t: TaskId)
    ensures Count(TimerTasks(timers + [timer]), t) == Count(TimerTasks(timers), t) + One(timer.task, t)
  {
    assert TimerTasks(timers + [timer]) == TimerTasks(timers) + [timer.task];
    CountAppend(TimerTasks(timers), timer.task, t);
  }

  lemma ExecuteTokens(s: State, run: QueuedRun, t: TaskId)
    ensures Live(Execute(s, run), t) == Live(s, t) + One(run.task, t)
    ensures Tokens(Execute(s, run), t) == Tokens(s, t) + One(run.task, t)
  {
    assert ExecutionTasks(s.executions + [Execution(run, false)]) == ExecutionTasks(s.executions) + [run.task];
    CountAppend(ExecutionTasks(s.executions), run.task, t);
  }

  lemma PendTokens(s: State, run: QueuedRun, t: TaskId)
    ensures Live(s.(pending := s.pending + [run]), t) == Live(s, t) + One(run.task, t)
    ensures Tokens(s.(pending := s.pending + [run]), t) == Tokens(s, t) + One(run.task, t)
  {
    assert RunTasks(s.pending + [run]) == RunTasks(s.pending) + [run.task];
    CountAppend(RunTasks(s.pending), run.task, t);
  }

  lemma EnqueueTokens(s: State, task: TaskId, t: TaskId)
    ensures Tokens(Enqueue(s, task, true), t) == Tokens(s, t) + One(task, t)
  {
    var run, next := QueuedRun(s.nextRun, task, true), s.(nextRun := s.nextRun + 1);
    assert Tokens(next, t) == Tokens(s, t);
    if IsRunning(s, task) || s.aborted {
      CountAppend(s.replans, task, t);
    } else if s.active < s.concurrency {
      ExecuteTokens(next, run, t);
    } else {
      PendTokens(next, run, t);
    }
  }

  lemma ResolveTokens(s: State, run: QueuedRun, t: TaskId)
    requires run.byTimer
    ensures Tokens(Resolve(s, run), t) == Tokens(s, t) + One(run.task, t)
  {
    CountAppend(s.replans, run.task, t);
  }

  /** One run leaves the queue: it starts, or is resolved if the scheduler has been stopped. */
  function Launched(s: State): State
    requires s.pending != []
  {
    var rest := s.(pending := s.pending[1..]);
    if s.aborted then Resolve(rest, s.pending[0]) else Execute(rest, s.pending[0])
  }

  lemma RestTokens(s: State, t: TaskId)
    requires s.pending != []
    ensures Tokens(s.(pending := s.pending[1..]), t) + One(s.pending[0].task, t) == Tokens(s, t)
  {
    assert RunTasks(s.pending[1..]) == Without(RunTasks(s.pending), 0);
    CountWithout(RunTasks(s.pending), 0, t);
  }

  lemma LaunchTokens(s: State, t: TaskId)
    requires AllByTimer(s) && s.pending != []
    ensures Tokens(Launched(s), t) == Tokens(s, t) && AllByTimer(Launched(s))
  {
    var run, rest := s.pending[0], s.(pending := s.pending[1..]);
    assert run in s.pending;
    RestTokens(s, t);
    ResolveTokens(rest, run, t);
    ExecuteTokens(rest, run, t);
  }

  lemma {:induction false} DrainTokens(s: State, t: TaskId)
    requires AllByTimer(s)
    ensures Tokens(Drain(s), t) == Tokens(s, t)
    decreases |s.pending|
  {
    if s.active >= s.concurrency || s.pending == [] {
    } else {
      LaunchTokens(s, t);
      DrainTokens(Launched(s), t);
    }
  }

  ghost predicate SameTasks(s: State, t: State) {
    t.tasks.Keys == s.tasks.Keys && t.order == s.order && t.started == s.started && t.aborted == s.aborted
  }

  lemma {:induction false} DrainKeepsRest(s: State)
    requires AllByTimer(s)
    ensures SameTasks(s, Drain(s)) && AllByTimer(Drain(s))
    decreases |s.pending|
  {
    if s.active >= s.concurrency || s.pending == [] {
    } else {
      var run, rest := s.pending[0], s.(pending := s.pending[1..]);
      assert run in s.pending;
      DrainKeepsRest(if s.aborted then Resolve(rest, run) else Execute(rest, run));
    }
  }

  lemma {:induction false} ResolveAllTokens(s: State, runs: seq<QueuedRun>, t: TaskId)
    requires forall r :: r in runs ==> r.byTimer
    ensures Count(ResolveAll(s, runs).replans, t) == Count(s.replans, t) + Count(RunTasks(runs), t)
    ensures var q := ResolveAll(s, runs); q == s.(resolved := q.resolved, replans := q.replans)
  {
    if runs == [] {
    } else {
      var front, last := runs[..|runs| - 1], runs[|runs| - 1];
      ResolveAllTokens(s, front, t);
      CountAppend(ResolveAll(s, front).replans, last.task, t);
      assert RunTasks(runs) == RunTasks(front) + [last.task];
      CountAppend(RunTasks(front), last.task, t);
    }
  }

  lemma {:induction false} FilterTimers(ts: seq<Timer>, p: Timer -> bool, t: TaskId)
    ensures Count(TimerTasks(Filter(ts, p)), t) <= Count(TimerTasks(ts), t)
  {
    if ts == [] {
    } else {
      FilterTimers(ts[1..], p, t);
      FirstTimer(ts, t);
      if p(ts[0]) {
        FirstTimer(Filter(ts, p), t);
        assert Filter(ts, p)[1..] == Filter(ts[1..], p);
      } else {
        assert Filter(ts, p) == Filter(ts[1..], p);
      }
    }
  }

  lemma FirstTimer(ts: seq<Timer>, t: TaskId)
    requires ts != []
    ensures Count(TimerTasks(ts), t) == One(ts[0].task, t) + Count(TimerTasks(ts[1..]), t)
  {
    assert TimerTasks(ts[1..]) == Without(TimerTasks(ts), 0);
    CountWithout(TimerTasks(ts), 0, t);
  }

  lemma {:induction false} PlanAllTokens(s: State, ids: seq<TaskId>, t: TaskId)
    requires s.started && forall id :: id in ids ==> id in s.tasks
    ensures Tokens(PlanAll(s, ids), t) == Tokens(s, t) + Count(ids, t)
    ensures PlanAll(s, ids).pending == s.pending && PlanAll(s, ids).executions == s.executions
    ensures SameTasks(s, PlanAll(s, ids))
  {
    if ids == [] {
    } else {
      PlanAllTokens(s, ids[..|ids| - 1], t);
      PlanTokens(PlanAll(s, ids[..|ids| - 1]), ids[|ids| - 1], t);
    }
  }

  /** No `runNow`, and no `start` after a `stop`. */
  ghost predicate TimerDriven(s: State, e: Event) {
    !e.RunNow? && (e.Start? ==> s.started || !s.aborted)
  }

  lemma StopTokens(s: State, t: TaskId)
    requires AllByTimer(s) && s.started
    ensures Tokens(StopState(s), t) <= Tokens(s, t)
  {
    var cleared := set id | id in s.tasks && s.tasks[id].timer.Some? :: s.tasks[id].timer.value;
    FilterTimers(s.timers, (x: Timer) => x.id !in cleared, t);
    ResolveAllTokens(Stopped(s), s.pending, t);
    assert RunTasks([]) == [];
  }

  lemma FireTokens(s: State, k: nat, t: TaskId)
    requires k < |s.timers|
    ensures Tokens(Next(s, Fire(k)), t) == Tokens(s, t)
  {
    var fired := s.(timers := Without(s.timers, k));
    assert TimerTasks(fired.timers) == Without(TimerTasks(s.timers), k);
    CountWithout(TimerTasks(s.timers), k, t);
    EnqueueTokens(fired, s.timers[k].task, t);
  }

  lemma GoneTokens(s: State, k: nat, t: TaskId)
    requires k < |s.executions|
    ensures Tokens(s.(active := s.active - 1, executions := Without(s.executions, k)), t) + One(s.executions[k].run.task, t) == Tokens(s, t)
  {
    assert ExecutionTasks(Without(s.executions, k)) == Without(ExecutionTasks(s.executions), k);
    CountWithout(ExecutionTasks(s.executions), k, t);
  }

  lemma GoneByTimer(s: State, k: nat)
    requires AllByTimer(s) && k < |s.executions|
    ensures s.executions[k].run.byTimer
    ensures AllByTimer(Resolve(s.(active := s.active - 1, executions := Without(s.executions, k)), s.executions[k].run))
  {
    assert s.executions[k] in s.executions;
  }

  lemma SettleTokens(s: State, k: nat, t: TaskId)
    requires AllByTimer(s) && k < |s.executions| && s.executions[k].finished
    ensures Tokens(Next(s, Settle(k)), t) == Tokens(s, t)
  {
    var gone := s.(active := s.active - 1, executions := Without(s.executions, k));
    var resolved := Resolve(gone, s.executions[k].run);
    GoneByTimer(s, k);
    GoneTokens(s, k, t);
    ResolveTokens(gone, s.executions[k].run, t);
    DrainTokens(resolved, t);
    assert Next(s, Settle(k)) == Drain(resolved);
  }

  /** What a step other than registering and starting does to the tokens of a task. */
  lemma TokensNeverGrow(s: State, e: Event, t: TaskId)
    requires AllByTimer(s) && !e.RunNow? && !e.Register? && !e.Start?
    ensures Tokens(Next(s, e), t) <= Tokens(s, t)
  {
    match e {
      case Stop =>
        if s.started { StopTokens(s, t); }
      case Fire(k) =>
        if k < |s.timers| { FireTokens(s, k, t); }
      case Finish(k) =>
        if k < |s.executions| && !s.executions[k].finished {
          assert ExecutionTasks(Next(s, e).executions) == ExecutionTasks(s.executions);
        }
      case Settle(k) =>
        if k < |s.executions| && s.executions[k].finished { SettleTokens(s, k, t); }
      case Replan(k) =>
        if k < |s.replans| {
          CountWithout(s.replans, k, t);
          PlanTokens(s.(replans := Without(s.replans, k)), s.replans[k], t);
        }
    }
  }

  lemma StepKeepsRest(s: State, e: Event)
    requires AllByTimer(s) && !e.RunNow? && !e.Register? && !e.Start?
    ensures AllByTimer(Next(s, e)) && Next(s, e).tasks.Keys == s.tasks.Keys && Next(s, e).order == s.order
    ensures !Next(s, e).started && !Next(s, e).aborted ==> !s.started && !s.aborted
  {
    match e {
      case Stop =>
        if s.started { ResolveAllTokens(Stopped(s), s.pending, ""); }
      case Fire(k) => FireKeepsRest(s, k);
      case Finish(k) => FinishKeepsRest(s, k);
      case Settle(k) => SettleKeepsRest(s, k);
      case Replan(k) =>
    }
  }

  lemma FireKeepsRest(s: State, k: nat)
    requires AllByTimer(s)
    ensures AllByTimer(Next(s, Fire(k))) && SameTasks(s, Next(s, Fire(k)))
  {
  }

  lemma FinishKeepsRest(s: State, k: nat)
    requires AllByTimer(s)
    ensures AllByTimer(Next(s, Finish(k))) && SameTasks(s, Next(s, Finish(k)))
  {
    if k < |s.executions| { assert s.executions[k] in s.executions; }
  }

  lemma SettleKeepsRest(s: State, k: nat)
    requires AllByTimer(s)
    ensures AllByTimer(Next(s, Settle(k))) && SameTasks(s, Next(s, Settle(k)))
  {
    if k < |s.executions| && s.executions[k].finished {
      GoneByTimer(s, k);
      DrainKeepsRest(Resolve(s.(active := s.active - 1, executions := Without(s.executions, k)), s.executions[k].run));
    }
  }

  lemma RegisterKeepsTokens(s: State, id: TaskId, intervalMs: int)
    requires OneTokenEach(s) && intervalMs >= 10 && id !in s.tasks
    ensures OneTokenEach(Next(s, Register(id, intervalMs)))
  {
    var added := s.(order := s.order + [id], tasks := s.tasks[id := TaskRecord(intervalMs, false, None)]);
    forall t
      ensures Tokens(Next(s, Register(id, intervalMs)), t) == Tokens(s, t) + (if s.started then One(id, t) else 0)
    {
      PlanTokens(added, id, t);
    }
  }

  lemma StartKeepsTokens(s: State)
    requires OneTokenEach(s) && !s.started && !s.aborted
    ensures OneTokenEach(Next(s, Start))
  {
    forall t
      ensures Tokens(Next(s, Start), t) <= if t in s.tasks then 1 else 0
    {
      PlanAllTokens(s.(started := true, aborted := false), s.order, t);
      CountDistinct(s.order, t);
    }
    PlanAllTokens(s.(started := true, aborted := false), s.order, "");
  }

  lemma TimerDrivenStep(s: State, e: Event)
    requires OneTokenEach(s) && TimerDriven(s, e)
    ensures OneTokenEach(Next(s, e))
  {
    if e.Register? {
      if e.intervalMs >= 10 && e.id !in s.tasks { RegisterKeepsTokens(s, e.id, e.intervalMs); }
    } else if e.Start? {
      if !s.started { StartKeepsTokens(s); }
    } else {
      StepKeepsRest(s, e);
      forall t
        ensures Tokens(Next(s, e), t) <= Tokens(s, t)
      {
        TokensNeverGrow(s, e, t);
      }
    }
  }

  /** With timer-driven runs only, and before any restart, no task ever has two runs waiting or running. */
  lemma {:induction false} TimerDrivenOneLive(concurrency: nat, events: seq<Event>)
    requires forall i :: 0 <= i < |events| ==> TimerDriven(After(Initial(concurrency), events[..i]), events[i])
    ensures OneTokenEach(After(Initial(concurrency), events))
    ensures OneLiveEach(After(Initial(concurrency), events))
  {
    if events == [] {
    } else {
      var front := events[..|events| - 1];
      forall i | 0 <= i < |front|
        ensures TimerDriven(After(Initial(concurrency), front[..i]), front[i])
      {
        assert front[..i] == events[..i];
      }
      TimerDrivenOneLive(concurrency, front);
      TimerDrivenStep(After(Initial(concurrency), front), events[|events| - 1]);
    }
    var s := After(Initial(concurrency), events);
    forall task
      ensures Live(s, task) <= Tokens(s, task) <= 1
    {
    }
  }

  /**
   In general the guard of `enqueue` prevents a second live run exactly when the task is marked running, the scheduler
   has been stopped, or the task has no live run: a run that only waits in the queue is not noticed.
   */
  lemma {:induction false} EnqueueKeepsOneLiveIff(s: State, task: TaskId, byTimer: bool)
    requires OneLiveEach(s)
    ensures OneLiveEach(Enqueue(s, task, byTimer)) <==> IsRunning(s, task) || s.aborted || Live(s, task) == 0
  {
    var t := Enqueue(s, task, byTimer);
    forall other
      ensures Live(t, other) == Live(s, other) + (if IsRunning(s, task) || s.aborted then 0 else One(task, other))
    {
      EnqueueLive(s, task, byTimer, other);
    }
    assert Live(t, task) == Live(s, task) + (if IsRunning(s, task) || s.aborted then 0 else 1);
  }

  lemma EnqueueLive(s: State, task: TaskId, byTimer: bool, other: TaskId)
    ensures Live(Enqueue(s, task, byTimer), other) == Live(s, other) + (if IsRunning(s, task) || s.aborted then 0 else One(task, other))
  {
    var run, next := QueuedRun(s.nextRun, task, byTimer), s.(nextRun := s.nextRun + 1);
    assert Live(next, other) == Live(s, other);
    if !(IsRunning(s, task) || s.aborted) {
      if s.active < s.concurrency { ExecuteTokens(next, run, other); } else { PendTokens(next, run, other); }
    }
  }

  lemma AfterOne(s: State, front: seq<Event>, e: Event)
    ensures After(s, front + [e]) == Next(After(s, front), e)
  {
    assert (front + [e])[..|front|] == front;
  }

  /** Two tasks registered with a started scheduler that runs one task at a time. */
  function TwoTasks(): State {
    Initial(1).(started := true, order := ["a", "b"], nextTimer := 2,
                tasks := map["a" := TaskRecord(10, false, Some(0)), "b" := TaskRecord(10, false, Some(1))],
                timers := [Timer(0, "a"), Timer(1, "b")])
  }

  ghost predicate Reached(concurrency: nat, s: State) {
    exists events :: After(Initial(concurrency), events) == s
  }

  lemma ReachedInitial(concurrency: nat)
    ensures Reached(concurrency, Initial(concurrency))
  {
    assert After(Initial(concurrency), []) == Initial(concurrency);
  }

  lemma ReachedNext(concurrency: nat, s: State, e: Event)
    requires Reached(concurrency, s)
    ensures Reached(concurrency, Next(s, e))
  {
    var events :| After(Initial(concurrency), events) == s;
    AfterOne(Initial(concurrency), events, e);
  }

  lemma ReachedTwo(concurrency: nat, s: State, e: Event, f: Event)
    requires Reached(concurrency, s)
    ensures Reached(concurrency, Next(Next(s, e), f))
  {
    ReachedNext(concurrency, s, e);
    ReachedNext(concurrency, Next(s, e), f);
  }

  lemma TwoTasksReached()
    ensures Reached(1, TwoTasks())
  {
    ReachedInitial(1);
    ReachedNext(1, Initial(1), Start);
    ReachedTwo(1, Initial(1).(started := true), Register("a", 10), Register("b", 10));
    BothRegistered();
  }

  lemma BothRegistered()
    ensures Next(Next(Initial(1).(started := true), Register("a", 10)), Register("b", 10)) == TwoTasks()
  {
    var s := Next(Initial(1).(started := true), Register("a", 10));
    assert s.order == ["a"] && s.timers == [Timer(0, "a")] && s.tasks == map["a" := TaskRecord(10, false, Some(0))];
  }

  /** The other task runs. */
  function OtherRuns(): State {
    Next(TwoTasks(), RunNow("b"))
  }

  lemma QueuedTwice()
    ensures var s := Next(Next(OtherRuns(), RunNow("a")), RunNow("a"));
      s.pending == [QueuedRun(1, "a", false), QueuedRun(2, "a", false)] && s.executions == [Execution(QueuedRun(0, "b", false), false)]
  {
    var s := OtherRuns();
    assert s.executions == [Execution(QueuedRun(0, "b", false), false)] && s.active == 1 && !IsRunning(s, "a");
    var t := Next(s, RunNow("a"));
    assert t.pending == [QueuedRun(1, "a", false)];
  }

  lemma TwoWaiting(s: State)
    requires s.pending == [QueuedRun(1, "a", false), QueuedRun(2, "a", false)]
    requires s.executions == [Execution(QueuedRun(0, "b", false), false)]
    ensures Live(s, "a") == 2
  {
    assert RunTasks(s.pending) == ["a"] + ["a"] && ExecutionTasks(s.executions) == ["b"];
    CountAppend(["a"], "a", "a");
    CountOne("a", "a");
    CountOne("a", "b");
  }

  /** Two runs of a task can wait at once: they are queued while the only slot is taken. */
  lemma {:induction false} TwoRunsWait()
    ensures exists events :: !OneLiveEach(After(Initial(1), events))
  {
    TwoTasksReached();
    ReachedNext(1, TwoTasks(), RunNow("b"));
    ReachedTwo(1, OtherRuns(), RunNow("a"), RunNow("a"));
    QueuedTwice();
    var s := Next(Next(OtherRuns(), RunNow("a")), RunNow("a"));
    TwoWaiting(s);
    assert !OneLiveEach(s);
  }
}
