/**
 When two runs of one task execute at the same time, against the class comment's "no overlapping task runs".

 The guard in `enqueue` looks at `record.running`; `drain` launches a waiting run without looking.
 */
module SchedulerOverlap {
  import opened Prelude
  import opened TaskScheduler
  import opened SchedulerRuns
  import opened SchedulerLive

  predicate Executes(e: Execution, task: TaskId) {
    !e.finished && e.run.task == task
  }

  /** Some run of the task executes. */
  predicate Executing(executions: seq<Execution>, task: TaskId) {
    exists i :: 0 <= i < |executions| && Executes(executions[i], task)
  }

  ghost predicate Clash(executions: seq<Execution>, i: nat, j: nat, task: TaskId)
    requires i < j < |executions|
  {
    Executes(executions[i], task) && Executes(executions[j], task)
  }

  /** Two runs of one task execute. */
  ghost predicate Overlap(executions: seq<Execution>) {
    exists i: nat, j: nat, task {:trigger Clash(executions, i, j, task)} :: i < j < |executions| && Clash(executions, i, j, task)
  }

  lemma OverlapAppend(executions: seq<Execution>, run: QueuedRun)
    requires !Overlap(executions)
    ensures Overlap(executions + [Execution(run, false)]) <==> Executing(executions, run.task)
  {
    var longer, n := executions + [Execution(run, false)], |executions|;
    if Executing(executions, run.task) {
      var i :| 0 <= i < n && Executes(executions[i], run.task);
      assert Clash(longer, i, n, run.task);
    }
    if i: nat, j: nat, task :| i < j < |longer| && Clash(longer, i, j, task) {
      if j < n {
        assert Clash(executions, i, j, task);
      } else {
        assert Executes(executions[i], run.task);
      }
    }
  }

  lemma OverlapWithout(executions: seq<Execution>, k: nat)
    requires k < |executions| && !Overlap(executions)
    ensures !Overlap(Without(executions, k))
  {
    var fewer := Without(executions, k);
    if i: nat, j: nat, task :| i < j < |fewer| && Clash(fewer, i, j, task) {
      var i', j' := if i < k then i else i + 1, if j < k then j else j + 1;
      assert Clash(executions, i', j', task);
    }
  }

  lemma ExecutingWithout(executions: seq<Execution>, k: nat, task: TaskId)
    requires k < |executions| && executions[k].finished
    ensures Executing(Without(executions, k), task) <==> Executing(executions, task)
  {
    var fewer := Without(executions, k);
    if i :| 0 <= i < |fewer| && Executes(fewer[i], task) {
      assert Executes(executions[if i < k then i else i + 1], task);
    }
    if i :| 0 <= i < |executions| && Executes(executions[i], task) {
      assert Executes(fewer[if i < k then i else i - 1], task);
    }
  }

  function Finished(executions: seq<Execution>, k: nat): seq<Execution>
    requires k < |executions|
  {
    executions[k := executions[k].(finished := true)]
  }

  lemma OverlapFinished(executions: seq<Execution>, k: nat)
    requires k < |executions| && !Overlap(executions)
    ensures !Overlap(Finished(executions, k))
  {
    var after := Finished(executions, k);
    forall i: nat, j: nat, task | i < j < |after|
      ensures !Clash(after, i, j, task)
    {
      assert !Clash(executions, i, j, task);
    }
  }

  /** The task whose run a step launches: at once, or from the head of the queue into the slot that a settled run frees. */
  function Launches(s: State, e: Event): Option<TaskId> {
    match e
    case RunNow(id) => if id in s.tasks && s.started then LaunchedAtOnce(s, id) else None
    case Fire(k) => if k < |s.timers| then LaunchedAtOnce(s, s.timers[k].task) else None
    case Settle(k) =>
      if k < |s.executions| && s.executions[k].finished && s.pending != [] then Some(s.pending[0].task) else None
    case _ => None
  }

  function LaunchedAtOnce(s: State, task: TaskId): Option<TaskId> {
    if !IsRunning(s, task) && !s.aborted && s.active < s.concurrency then Some(task) else None
  }

  lemma {:induction false} PlanAllExecutions(s: State, ids: seq<TaskId>)
    ensures PlanAll(s, ids).executions == s.executions
  {
    if ids == [] {
    } else {
      PlanAllExecutions(s, ids[..|ids| - 1]);
    }
  }

  lemma EnqueueOverlap(s: State, task: TaskId, byTimer: bool)
    requires !Overlap(s.executions)
    ensures Overlap(Enqueue(s, task, byTimer).executions) <==>
      LaunchedAtOnce(s, task).Some? && Executing(s.executions, task)
  {
    OverlapAppend(s.executions, QueuedRun(s.nextRun, task, byTimer));
  }

  /** A settled run frees one slot, which the head of the queue takes. */
  lemma SettleExecutions(s: State, k: nat)
    requires Invariant(s) && k < |s.executions| && s.executions[k].finished
    ensures Next(s, Settle(k)).executions == Without(s.executions, k) + if s.pending == [] then [] else [Execution(s.pending[0], false)]
    ensures Next(s, Settle(k)).pending == if s.pending == [] then [] else s.pending[1..]
    ensures Next(s, Settle(k)).tasks == if s.pending == [] then s.tasks else WithRunning(s.tasks, s.pending[0].task, true)
  {
    var freed := Settled(s, k);
    if s.pending == [] {
      assert Without(s.executions, k) + [] == Without(s.executions, k);
    } else {
      var launched := Execute(freed.(pending := s.pending[1..]), s.pending[0]);
      DrainStep(freed);
      assert Drain(launched) == launched;
    }
  }

  lemma SettleOverlap(s: State, k: nat)
    requires Invariant(s) && !Overlap(s.executions) && k < |s.executions| && s.executions[k].finished
    ensures Overlap(Next(s, Settle(k)).executions) <==> s.pending != [] && Executing(s.executions, s.pending[0].task)
  {
    SettleExecutions(s, k);
    OverlapWithout(s.executions, k);
    if s.pending != [] {
      OverlapAppend(Without(s.executions, k), s.pending[0]);
      ExecutingWithout(s.executions, k, s.pending[0].task);
    }
  }

  /** In every reachable state without an overlap: a step makes one exactly if it launches a run of a task that is executing. */
  lemma {:induction false} StepOverlapsIff(s: State, e: Event)
    requires Invariant(s) && !Overlap(s.executions)
    ensures Overlap(Next(s, e).executions) <==> Launches(s, e).Some? && Executing(s.executions, Launches(s, e).value)
  {
    match e {
      case Register(_, _) =>
      case Start => PlanAllExecutions(s.(started := true, aborted := false), s.order);
      case Stop => ResolveAllEffect(Stopped(s), s.pending);
      case RunNow(id) => EnqueueOverlap(s, id, false);
      case Fire(k) => if k < |s.timers| { EnqueueOverlap(s.(timers := Without(s.timers, k)), s.timers[k].task, true); }
      case Finish(k) => if k < |s.executions| { OverlapFinished(s.executions, k); }
      case Settle(k) => if k < |s.executions| && s.executions[k].finished { SettleOverlap(s, k); }
      case Replan(_) =>
    }
  }

  // As long as nothing has overlapped, `record.running` says whether a run of the task executes.

  predicate FlagAgrees(s: State, task: TaskId) {
    IsRunning(s, task) <==> Executing(s.executions, task)
  }

  ghost predicate FlagsAgree(s: State) {
    forall task {:trigger FlagAgrees(s, task)} :: FlagAgrees(s, task)
  }

  /** Planning a task touches no flag. */
  ghost predicate OnlyPlans(s: State, t: State) {
    t.executions == s.executions && forall task :: IsRunning(t, task) == IsRunning(s, task)
  }

  lemma {:induction false} PlanAllOnlyPlans(s: State, ids: seq<TaskId>)
    ensures OnlyPlans(s, PlanAll(s, ids))
  {
    if ids == [] {
    } else {
      PlanAllOnlyPlans(s, ids[..|ids| - 1]);
    }
  }

  lemma PlansKeepFlags(s: State, t: State)
    requires FlagsAgree(s) && OnlyPlans(s, t)
    ensures FlagsAgree(t)
  {
    forall task
      ensures FlagAgrees(t, task)
    {
      assert FlagAgrees(s, task);
    }
  }

  lemma RegisterFlags(s: State, id: TaskId, intervalMs: int)
    requires FlagsAgree(s) && Registered(s) && id !in s.tasks
    ensures FlagsAgree(s.(order := s.order + [id], tasks := s.tasks[id := TaskRecord(intervalMs, false, None)]))
  {
    var t := s.(order := s.order + [id], tasks := s.tasks[id := TaskRecord(intervalMs, false, None)]);
    forall task
      ensures FlagAgrees(t, task)
    {
      assert FlagAgrees(s, task);
    }
  }

  lemma StopFlags(s: State)
    requires FlagsAgree(s)
    ensures FlagsAgree(StopState(s))
  {
    ResolveAllEffect(Stopped(s), s.pending);
    forall task
      ensures FlagAgrees(StopState(s), task)
    {
      assert FlagAgrees(s, task);
    }
  }

  lemma ExecutingAppend(executions: seq<Execution>, run: QueuedRun, task: TaskId)
    ensures Executing(executions + [Execution(run, false)], task) <==> Executing(executions, task) || run.task == task
  {
    var longer := executions + [Execution(run, false)];
    if run.task == task { assert Executes(longer[|executions|], task); }
    if i :| 0 <= i < |executions| && Executes(executions[i], task) { assert Executes(longer[i], task); }
  }

  lemma ExecuteFlags(s: State, run: QueuedRun)
    requires FlagsAgree(s) && run.task in s.tasks
    ensures FlagsAgree(Execute(s, run))
  {
    forall task
      ensures FlagAgrees(Execute(s, run), task)
    {
      assert FlagAgrees(s, task);
      ExecutingAppend(s.executions, run, task);
    }
  }

  lemma QueueFlags(s: State, t: State)
    requires FlagsAgree(s) && t.executions == s.executions && t.tasks == s.tasks
    ensures FlagsAgree(t)
  {
    forall task
      ensures FlagAgrees(t, task)
    {
      assert FlagAgrees(s, task);
    }
  }

  lemma EnqueueFlags(s: State, task: TaskId, byTimer: bool)
    requires FlagsAgree(s) && task in s.tasks
    ensures FlagsAgree(Enqueue(s, task, byTimer))
  {
    var run, next := QueuedRun(s.nextRun, task, byTimer), s.(nextRun := s.nextRun + 1);
    QueueFlags(s, next);
    if IsRunning(s, task) || s.aborted || s.active >= s.concurrency {
      QueueFlags(s, Enqueue(s, task, byTimer));
    } else {
      ExecuteFlags(next, run);
    }
  }

  /** The flag is cleared when the only run of its task that executes finishes. */
  lemma FinishFlags(s: State, k: nat)
    requires FlagsAgree(s) && Registered(s) && !Overlap(s.executions) && k < |s.executions| && !s.executions[k].finished
    ensures FlagsAgree(Next(s, Finish(k)))
  {
    var t, mine := Next(s, Finish(k)), s.executions[k].run.task;
    assert s.executions[k] in s.executions;
    forall task
      ensures FlagAgrees(t, task)
    {
      assert FlagAgrees(s, task);
      FinishedExecuting(s.executions, k, task);
    }
  }

  lemma FinishedExecuting(executions: seq<Execution>, k: nat, task: TaskId)
    requires k < |executions| && !executions[k].finished && !Overlap(executions)
    ensures Executing(Finished(executions, k), task) <==> Executing(executions, task) && task != executions[k].run.task
  {
    var after := Finished(executions, k);
    if i :| 0 <= i < |executions| && Executes(after[i], task) {
      assert Executes(executions[i], task);
      assert i < k ==> !Clash(executions, i, k, task);
      assert k < i ==> !Clash(executions, k, i, task);
    }
    if i :| 0 <= i < |executions| && Executes(executions[i], task) {
      assert task != executions[k].run.task ==> Executes(after[i], task);
    }
  }

  lemma SettleFlags(s: State, k: nat)
    requires Invariant(s) && FlagsAgree(s) && Registered(s) && k < |s.executions| && s.executions[k].finished
    ensures FlagsAgree(Next(s, Settle(k)))
  {
    var freed := s.(executions := Without(s.executions, k));
    forall task
      ensures FlagAgrees(freed, task)
    {
      assert FlagAgrees(s, task);
      ExecutingWithout(s.executions, k, task);
    }
    SettleExecutions(s, k);
    if s.pending == [] {
      QueueFlags(freed, Next(s, Settle(k)));
    } else {
      assert s.pending[0] in s.pending;
      ExecuteFlags(freed, s.pending[0]);
      QueueFlags(Execute(freed, s.pending[0]), Next(s, Settle(k)));
    }
  }

  lemma TimerFlags(s: State, k: nat)
    requires FlagsAgree(s) && Registered(s) && k < |s.timers|
    ensures FlagsAgree(s.(timers := Without(s.timers, k))) && s.timers[k].task in s.tasks
  {
    assert s.timers[k] in s.timers;
    PlansKeepFlags(s, s.(timers := Without(s.timers, k)));
  }

  lemma StepKeepsFlags(s: State, e: Event)
    requires Invariant(s) && Registered(s) && FlagsAgree(s) && !Overlap(s.executions)
    ensures FlagsAgree(Next(s, e))
  {
    match e {
      case Register(id, intervalMs) =>
        if intervalMs >= 10 && id !in s.tasks {
          RegisterFlags(s, id, intervalMs);
          var t := s.(order := s.order + [id], tasks := s.tasks[id := TaskRecord(intervalMs, false, None)]);
          PlansKeepFlags(t, Plan(t, id));
        }
      case Start =>
        if !s.started {
          var t := s.(started := true, aborted := false);
          PlansKeepFlags(s, t);
          PlanAllOnlyPlans(t, s.order);
          PlansKeepFlags(t, PlanAll(t, s.order));
        }
      case Stop => if s.started { StopFlags(s); }
      case RunNow(id) => if id in s.tasks && s.started { EnqueueFlags(s, id, false); }
      case Fire(k) =>
        if k < |s.timers| {
          TimerFlags(s, k);
          EnqueueFlags(s.(timers := Without(s.timers, k)), s.timers[k].task, true);
        }
      case Finish(k) => if k < |s.executions| && !s.executions[k].finished { FinishFlags(s, k); }
      case Settle(k) => if k < |s.executions| && s.executions[k].finished { SettleFlags(s, k); }
      case Replan(k) =>
        if k < |s.replans| {
          var t := s.(replans := Without(s.replans, k));
          PlansKeepFlags(s, t);
          PlansKeepFlags(t, Plan(t, s.replans[k]));
        }
    }
  }

  /** The step that `drain` should refuse: a slot becomes free while the head of the queue is of a task marked running. */
  predicate DrainsRunning(s: State, e: Event) {
    e.Settle? && e.k < |s.executions| && s.executions[e.k].finished && s.pending != [] && IsRunning(s, s.pending[0].task)
  }

  lemma LaunchesRunning(s: State, e: Event)
    requires FlagsAgree(s)
    ensures Launches(s, e).Some? && Executing(s.executions, Launches(s, e).value) <==> DrainsRunning(s, e)
  {
    if Launches(s, e).Some? { assert FlagAgrees(s, Launches(s, e).value); }
    if DrainsRunning(s, e) { assert FlagAgrees(s, s.pending[0].task); }
  }

  ghost predicate OverlapsAt(concurrency: nat, events: seq<Event>, n: nat)
    requires n <= |events|
  {
    Overlap(After(Initial(concurrency), events[..n]).executions)
  }

  predicate DrainsRunningAt(concurrency: nat, events: seq<Event>, n: nat)
    requires n < |events|
  {
    DrainsRunning(After(Initial(concurrency), events[..n]), events[n])
  }

  lemma InitialFlags(concurrency: nat)
    ensures FlagsAgree(Initial(concurrency)) && !Overlap(Initial(concurrency).executions)
  {
    forall task
      ensures FlagAgrees(Initial(concurrency), task)
    {
    }
  }

  lemma {:induction false} AlwaysRegistered(concurrency: nat, events: seq<Event>)
    ensures Registered(After(Initial(concurrency), events))
  {
    if events == [] {
    } else {
      AlwaysRegistered(concurrency, events[..|events| - 1]);
      NextRegistered(After(Initial(concurrency), events[..|events| - 1]), events[|events| - 1]);
    }
  }

  lemma {:induction false} FlagsAgreeBefore(concurrency: nat, events: seq<Event>, n: nat)
    requires concurrency >= 1 && n <= |events|
    requires forall m: nat {:trigger OverlapsAt(concurrency, events, m)} :: m < n ==> !OverlapsAt(concurrency, events, m)
    ensures FlagsAgree(After(Initial(concurrency), events[..n]))
  {
    if n == 0 {
      InitialFlags(concurrency);
    } else {
      FlagsAgreeBefore(concurrency, events, n - 1);
      assert !OverlapsAt(concurrency, events, n - 1);
      EveryInterleaving(concurrency, events[..n - 1]);
      AlwaysRegistered(concurrency, events[..n - 1]);
      AfterNext(concurrency, events, n - 1);
      StepKeepsFlags(After(Initial(concurrency), events[..n - 1]), events[n - 1]);
    }
  }

  lemma AfterNext(concurrency: nat, events: seq<Event>, n: nat)
    requires n < |events|
    ensures After(Initial(concurrency), events[..n + 1]) == Next(After(Initial(concurrency), events[..n]), events[n])
  {
    assert events[..n + 1] == events[..n] + [events[n]];
    AfterOne(Initial(concurrency), events[..n], events[n]);
  }

  /** The first overlap of an interleaving arises exactly where `drain` launches a run of a task marked running. */
  lemma {:induction false} FirstOverlapIff(concurrency: nat, events: seq<Event>, n: nat)
    requires concurrency >= 1 && n < |events|
    requires forall m: nat {:trigger OverlapsAt(concurrency, events, m)} :: m <= n ==> !OverlapsAt(concurrency, events, m)
    ensures OverlapsAt(concurrency, events, n + 1) <==> DrainsRunningAt(concurrency, events, n)
  {
    var s := After(Initial(concurrency), events[..n]);
    assert !OverlapsAt(concurrency, events, n);
    EveryInterleaving(concurrency, events[..n]);
    FlagsAgreeBefore(concurrency, events, n);
    StepOverlapsIff(s, events[n]);
    LaunchesRunning(s, events[n]);
    AfterNext(concurrency, events, n);
  }

  /** The class comment's promise holds throughout an interleaving exactly if `drain` never launches a run of a task marked running. */
  lemma {:induction false} NeverOverlapsIff(concurrency: nat, events: seq<Event>, n: nat)
    requires concurrency >= 1 && n <= |events|
    ensures (forall m: nat {:trigger OverlapsAt(concurrency, events, m)} :: m <= n ==> !OverlapsAt(concurrency, events, m))
       <==> (forall m: nat {:trigger DrainsRunningAt(concurrency, events, m)} :: m < n ==> !DrainsRunningAt(concurrency, events, m))
  {
    if n == 0 {
      InitialFlags(concurrency);
    } else {
      NeverOverlapsIff(concurrency, events, n - 1);
      if forall m: nat {:trigger OverlapsAt(concurrency, events, m)} :: m <= n - 1 ==> !OverlapsAt(concurrency, events, m) {
        FirstOverlapIff(concurrency, events, n - 1);
      }
    }
  }

  /** With timer-driven runs only and before any restart, no two runs of a task ever execute at once. */
  lemma {:induction false} TimerDrivenRunsNeverOverlap(concurrency: nat, events: seq<Event>)
    requires forall i :: 0 <= i < |events| ==> TimerDriven(After(Initial(concurrency), events[..i]), events[i])
    ensures !Overlap(After(Initial(concurrency), events).executions)
  {
    TimerDrivenOneLive(concurrency, events);
    var s := After(Initial(concurrency), events);
    forall i: nat, j: nat, task | i < j < |s.executions|
      ensures !Clash(s.executions, i, j, task)
    {
      assert Live(s, task) <= 1;
      if Clash(s.executions, i, j, task) { CountTwice(ExecutionTasks(s.executions), i, j, task); }
    }
  }

  lemma CountTwice<T>(xs: seq<T>, i: nat, j: nat, x: T)
    requires i < j < |xs| && xs[i] == x && xs[j] == x
    ensures Count(xs, x) >= 2
  {
    CountWithout(xs, j, x);
    CountWithout(Without(xs, j), i, x);
  }

  // The promise fails: `b` and `c` take both slots, `a` is queued twice, and then the slots become free.

  function Records(a: bool, b: bool, c: bool): map<TaskId, TaskRecord> {
    map["a" := TaskRecord(10, a, Some(0)), "b" := TaskRecord(10, b, Some(1)), "c" := TaskRecord(10, c, Some(2))]
  }

  function Run(id: nat, task: TaskId): QueuedRun {
    QueuedRun(id, task, false)
  }

  function Begun(id: nat, task: TaskId): Execution {
    Execution(Run(id, task), false)
  }

  function Ended(id: nat, task: TaskId): Execution {
    Execution(Run(id, task), true)
  }

  /** Three tasks registered with a started scheduler that has two slots, and what has become of four runs. */
  function Stage(tasks: map<TaskId, TaskRecord>, pending: seq<QueuedRun>, executions: seq<Execution>, resolved: seq<nat>,
                 launched: seq<nat>, nextRun: nat): State {
    State(2, ["a", "b", "c"], tasks, pending, executions, |executions|, true, false,
          [Timer(0, "a"), Timer(1, "b"), Timer(2, "c")], [], resolved, launched, nextRun, 3)
  }

  lemma SetUp()
    ensures Reached(2, Stage(Records(false, false, false), [], [], [], [], 0))
  {
    var s := Initial(2).(started := true, order := ["a"], tasks := map["a" := TaskRecord(10, false, Some(0))],
                         timers := [Timer(0, "a")], nextTimer := 1);
    ReachedInitial(2);
    ReachedTwo(2, Initial(2), Start, Register("a", 10));
    FirstTask(s);
    ReachedTwo(2, s, Register("b", 10), Register("c", 10));
    OtherTasks(s);
  }

  lemma FirstTask(s: State)
    requires s == Initial(2).(started := true, order := ["a"], tasks := map["a" := TaskRecord(10, false, Some(0))],
                              timers := [Timer(0, "a")], nextTimer := 1)
    ensures Next(Next(Initial(2), Start), Register("a", 10)) == s
  {
    assert Next(Initial(2), Start) == Initial(2).(started := true);
  }

  lemma OtherTasks(s: State)
    requires s == Initial(2).(started := true, order := ["a"], tasks := map["a" := TaskRecord(10, false, Some(0))],
                              timers := [Timer(0, "a")], nextTimer := 1)
    ensures Next(Next(s, Register("b", 10)), Register("c", 10)) == Stage(Records(false, false, false), [], [], [], [], 0)
  {
    var t := Next(s, Register("b", 10));
    assert t.order == ["a", "b"] && t.timers == [Timer(0, "a"), Timer(1, "b")];
  }

  lemma SlotsTaken()
    ensures Next(Next(Stage(Records(false, false, false), [], [], [], [], 0), RunNow("b")), RunNow("c"))
         == Stage(Records(false, true, true), [], [Begun(0, "b"), Begun(1, "c")], [], [0, 1], 2)
  {
    var s := Next(Stage(Records(false, false, false), [], [], [], [], 0), RunNow("b"));
    assert s == Stage(Records(false, true, false), [], [Begun(0, "b")], [], [0], 1);
  }

  lemma QueuedTwice()
    ensures Next(Next(Stage(Records(false, true, true), [], [Begun(0, "b"), Begun(1, "c")], [], [0, 1], 2), RunNow("a")), RunNow("a"))
         == Stage(Records(false, true, true), [Run(2, "a"), Run(3, "a")], [Begun(0, "b"), Begun(1, "c")], [], [0, 1], 4)
  {
    var s := Next(Stage(Records(false, true, true), [], [Begun(0, "b"), Begun(1, "c")], [], [0, 1], 2), RunNow("a"));
    assert s == Stage(Records(false, true, true), [Run(2, "a")], [Begun(0, "b"), Begun(1, "c")], [], [0, 1], 3);
  }

  /** When a run has ended, settling it launches the next one of `a`, whether or not `a` is running. */
  lemma SlotFreed(tasks: map<TaskId, TaskRecord>, id: nat, task: TaskId, other: Execution, next: nat, rest: seq<QueuedRun>, resolved: seq<nat>, launched: seq<nat>)
    requires task in tasks
    ensures Next(Next(Stage(tasks, [Run(next, "a")] + rest, [Begun(id, task), other], resolved, launched, 4), Finish(0)), Settle(0))
         == Stage(WithRunning(WithRunning(tasks, task, false), "a", true), rest, [other, Begun(next, "a")], resolved + [id], launched + [next], 4)
  {
    var s := Stage(tasks, [Run(next, "a")] + rest, [Begun(id, task), other], resolved, launched, 4);
    var t := Next(s, Finish(0));
    assert t == Stage(WithRunning(tasks, task, false), [Run(next, "a")] + rest, [Ended(id, task), other], resolved, launched, 4);
    var freed := Resolve(t.(active := 1, executions := Without(t.executions, 0)), Run(id, task));
    assert Without(t.executions, 0) == [other];
    DrainStep(freed);
    var after := Execute(freed.(pending := rest), Run(next, "a"));
    assert freed.pending[1..] == rest;
    assert Drain(after) == after;
  }

  lemma BothQueued()
    ensures Reached(2, Stage(Records(false, true, true), [Run(2, "a")] + [Run(3, "a")], [Begun(0, "b"), Begun(1, "c")], [], [0, 1], 4))
  {
    SetUp();
    ReachedTwo(2, Stage(Records(false, false, false), [], [], [], [], 0), RunNow("b"), RunNow("c"));
    SlotsTaken();
    ReachedTwo(2, Stage(Records(false, true, true), [], [Begun(0, "b"), Begun(1, "c")], [], [0, 1], 2), RunNow("a"), RunNow("a"));
    QueuedTwice();
    assert [Run(2, "a")] + [Run(3, "a")] == [Run(2, "a"), Run(3, "a")];
  }

  lemma ReachedFreed(tasks: map<TaskId, TaskRecord>, id: nat, task: TaskId, other: Execution, next: nat, rest: seq<QueuedRun>, resolved: seq<nat>, launched: seq<nat>)
    requires task in tasks && Reached(2, Stage(tasks, [Run(next, "a")] + rest, [Begun(id, task), other], resolved, launched, 4))
    ensures Reached(2, Stage(WithRunning(WithRunning(tasks, task, false), "a", true), rest, [other, Begun(next, "a")], resolved + [id], launched + [next], 4))
  {
    ReachedTwo(2, Stage(tasks, [Run(next, "a")] + rest, [Begun(id, task), other], resolved, launched, 4), Finish(0), Settle(0));
    SlotFreed(tasks, id, task, other, next, rest, resolved, launched);
  }

  /** Two runs of `a` execute at once: three tasks registered, `b` and `c` run, `a` is run twice, and `b` and `c` end. */
  lemma {:induction false} RunsOverlap()
    ensures exists events :: Overlap(After(Initial(2), events).executions)
  {
    BothQueued();
    var tasks := Records(false, true, true);
    ReachedFreed(tasks, 0, "b", Begun(1, "c"), 2, [Run(3, "a")], [], [0, 1]);
    var tasks' := WithRunning(WithRunning(tasks, "b", false), "a", true);
    assert [Run(3, "a")] == [Run(3, "a")] + [];
    ReachedFreed(tasks', 1, "c", Begun(2, "a"), 3, [], [] + [0], [0, 1] + [2]);
    assert Clash([Begun(2, "a"), Begun(3, "a")], 0, 1, "a");
  }
}
